/** Path functions for a host's operating system, chosen by an argument (packages/shared/src/hostPath.ts).
    Paths are strings; nothing reads a working directory. */
module HostPath {

  datatype Platform = Linux | Darwin | Win32

  /** The root of a path: as written, in the host's canonical spelling, and whether it anchors the path. */
  datatype ParsedRoot = ParsedRoot(raw: string, canonical: string, absolute: bool)

  function SepOf(platform: Platform): char {
    if platform.Win32? then '\\' else '/'
  }

  predicate IsSep(platform: Platform, ch: char) {
    ch == '/' || (platform.Win32? && ch == '\\')
  }

  predicate HasTrailingSep(platform: Platform, p: string) {
    p != "" && IsSep(platform, p[|p| - 1])
  }

  /** Where the run of separators that starts at i stops. */
  function SepRunEnd(platform: Platform, s: string, i: nat): (j: nat)
    requires i <= |s|
    ensures i <= j <= |s|
    ensures forall k | i <= k < j :: IsSep(platform, s[k])
    ensures j < |s| ==> !IsSep(platform, s[j])
    decreases |s| - i
  {
    if i < |s| && IsSep(platform, s[i]) then SepRunEnd(platform, s, i + 1) else i
  }

  /** Where the run of non-separators that starts at i stops. */
  function NameEnd(platform: Platform, s: string, i: nat): (j: nat)
    requires i <= |s|
    ensures i <= j <= |s|
    ensures forall k | i <= k < j :: !IsSep(platform, s[k])
    ensures j < |s| ==> IsSep(platform, s[j])
    decreases |s| - i
  {
    if i < |s| && !IsSep(platform, s[i]) then NameEnd(platform, s, i + 1) else i
  }

  // ---- Roots ----

  predicate IsDriveLetter(c: char) {
    'A' <= c <= 'Z' || 'a' <= c <= 'z'
  }

  predicate HasDrivePrefix(p: string) {
    |p| >= 2 && IsDriveLetter(p[0]) && p[1] == ':'
  }

  datatype UncMatch = NoUnc | Unc(server: string, share: string, rawLength: nat)

  /** The UNC prefix: two separators, a server name, separators, a share name, then separators or the end. */
  function MatchUnc(p: string): (m: UncMatch)
    ensures m.Unc? ==> 5 <= m.rawLength <= |p|
  {
    if |p| < 2 || !IsSep(Win32, p[0]) || !IsSep(Win32, p[1]) then NoUnc else
      var serverEnd := NameEnd(Win32, p, 2);
      var shareStart := SepRunEnd(Win32, p, serverEnd);
      var shareEnd := NameEnd(Win32, p, shareStart);
      if serverEnd == 2 || shareStart == serverEnd || shareEnd == shareStart then NoUnc
      else Unc(p[2..serverEnd], p[shareStart..shareEnd], SepRunEnd(Win32, p, shareEnd))
  }

  function UncRoot(server: string, share: string): string {
    "\\\\" + server + "\\" + share + "\\"
  }

  function ParseRoot(platform: Platform, p: string): (root: ParsedRoot)
    ensures |root.raw| <= |p|
  {
    if !platform.Win32? then
      if p != "" && p[0] == '/' then ParsedRoot("/", "/", true) else ParsedRoot("", "", false)
    else
      var unc := MatchUnc(p);
      if unc.Unc? then ParsedRoot(p[..unc.rawLength], UncRoot(unc.server, unc.share), true)
      else if p != "" && IsSep(platform, p[0]) then ParsedRoot(p[..1], "\\", true)
      else if HasDrivePrefix(p) then
        if |p| > 2 && IsSep(platform, p[2]) then ParsedRoot(p[..3], p[..2] + "\\", true)
        else ParsedRoot(p[..2], p[..2], false)
      else ParsedRoot("", "", false)
  }

  // ---- Segments ----

  /** Split at every run of separators; a leading or trailing run leaves an empty piece. */
  function SplitRuns(platform: Platform, s: string): seq<string>
    decreases |s|
  {
    var i := NameEnd(platform, s, 0);
    if i == |s| then [s] else
      var j := SepRunEnd(platform, s, i);
      [s[..i]] + SplitRuns(platform, s[j..])
  }

  function Keep(pieces: seq<string>): seq<string> {
    if pieces == [] then []
    else (if pieces[0] == "" || pieces[0] == "." then [] else [pieces[0]]) + Keep(pieces[1..])
  }

  function NonEmpty(pieces: seq<string>): seq<string> {
    if pieces == [] then []
    else (if pieces[0] == "" then [] else [pieces[0]]) + NonEmpty(pieces[1..])
  }

  function SplitSegments(platform: Platform, rest: string): seq<string> {
    Keep(SplitRuns(platform, rest))
  }

  function JoinWith(pieces: seq<string>, sep: char): string {
    if pieces == [] then ""
    else if |pieces| == 1 then pieces[0]
    else pieces[0] + [sep] + JoinWith(pieces[1..], sep)
  }

  /** One step of dot resolution: a name is pushed; `..` pops a name, is kept when it cannot, and is dropped at a
      root. */
  function PushSegment(out: seq<string>, segment: string, absolute: bool): seq<string> {
    if segment != ".." then out + [segment]
    else if out != [] && out[|out| - 1] != ".." then out[..|out| - 1]
    else if !absolute then out + [".."]
    else out
  }

  function Resolved(segments: seq<string>, absolute: bool): seq<string> {
    if segments == [] then []
    else PushSegment(Resolved(segments[..|segments| - 1], absolute), segments[|segments| - 1], absolute)
  }

  method ResolveDots(segments: seq<string>, absolute: bool) returns (out: seq<string>)
    ensures out == Resolved(segments, absolute)
  {
    out := [];
    for i := 0 to |segments|
      invariant out == Resolved(segments[..i], absolute)
    {
      assert segments[..i + 1][..i] == segments[..i];
      var segment := segments[i];
      if segment != ".." {
        out := out + [segment];
      } else if |out| > 0 && out[|out| - 1] != ".." {
        out := out[..|out| - 1];
      } else if !absolute {
        out := out + [".."];
      }
    }
    assert segments[..|segments|] == segments;
  }

  function Normalize(platform: Platform, p: string): string {
    if p == "" then "." else
      var sep := SepOf(platform);
      var root := ParseRoot(platform, p);
      var tail := JoinWith(Resolved(SplitSegments(platform, p[|root.raw|..]), root.absolute), sep);
      var trailing := if HasTrailingSep(platform, p) then [sep] else "";
      if tail == "" then
        if root.canonical == "" then "." + trailing
        else if root.absolute then root.canonical
        else root.canonical + "." + trailing
      else root.canonical + tail + trailing
  }

  /** A rooted first part must not become a UNC prefix: a leading run of two or more separators shrinks to one. */
  function CollapseLeadingSeps(joined: string): string {
    var j := SepRunEnd(Win32, joined, 0);
    if j >= 2 then "\\" + joined[j..] else joined
  }

  predicate StartsWithTwoSeps(p: string) {
    |p| >= 2 && IsSep(Win32, p[0]) && IsSep(Win32, p[1])
  }

  function Join(platform: Platform, parts: seq<string>): string {
    var given := NonEmpty(parts);
    if given == [] then "." else
      var joined := JoinWith(given, SepOf(platform));
      var collapses := platform.Win32? && !StartsWithTwoSeps(given[0]);
      Normalize(platform, if collapses then CollapseLeadingSeps(joined) else joined)
  }

  // ---- dirname and basename ----

  /** Where p stops once its trailing separators at or after lo are left off. */
  function BodyEnd(platform: Platform, p: string, lo: nat, hi: nat): (e: nat)
    requires lo <= hi <= |p|
    ensures lo <= e <= hi
    ensures forall k | e <= k < hi :: IsSep(platform, p[k])
    ensures e > lo ==> !IsSep(platform, p[e - 1])
    decreases hi
  {
    if hi > lo && IsSep(platform, p[hi - 1]) then BodyEnd(platform, p, lo, hi - 1) else hi
  }

  /** The last separator of p[lo..hi], or -1. */
  function LastSep(platform: Platform, p: string, lo: nat, hi: nat): (k: int)
    requires lo <= hi <= |p|
    ensures k == -1 || lo <= k < hi
    ensures k >= 0 ==> IsSep(platform, p[k])
    ensures forall m | lo <= m < hi && k < m :: !IsSep(platform, p[m])
    decreases hi
  {
    if hi == lo then -1
    else if IsSep(platform, p[hi - 1]) then hi - 1
    else LastSep(platform, p, lo, hi - 1)
  }

  /** Split at every single separator. */
  function SplitEach(platform: Platform, s: string): (pieces: seq<string>)
    ensures pieces != []
    decreases |s|
  {
    var k := LastSep(platform, s, 0, |s|);
    if k == -1 then [s] else SplitEach(platform, s[..k]) + [s[k + 1..]]
  }

  /** The separator before the last name of p, looking no further left than lo; -1 when there is none. */
  function LastCut(platform: Platform, p: string, lo: nat): int
    requires lo <= |p|
  {
    LastSep(platform, p, lo, BodyEnd(platform, p, lo, |p|))
  }

  /** What dirname takes for the root of a win32 path: the whole path (a bare share), or the end of the root (-1 for
      none) and the offset where names begin. */
  datatype DirRoot = WholePath | RootUpTo(rootEnd: int, offset: nat)

  function DirRootOf(p: string): (r: DirRoot)
    requires |p| >= 2
    ensures r.RootUpTo? ==> -1 <= r.rootEnd <= |p| && r.offset <= |p|
  {
    if IsSep(Win32, p[0]) then
      if !IsSep(Win32, p[1]) then RootUpTo(1, 1) else
        var serverEnd := NameEnd(Win32, p, 2);
        if serverEnd == |p| || serverEnd == 2 then RootUpTo(1, 1) else
          var shareStart := SepRunEnd(Win32, p, serverEnd);
          if shareStart == |p| then RootUpTo(1, 1) else
            var shareEnd := NameEnd(Win32, p, shareStart);
            if shareEnd == |p| then WholePath else RootUpTo(shareEnd + 1, shareEnd + 1)
    else if HasDrivePrefix(p) then
      if |p| > 2 && IsSep(Win32, p[2]) then RootUpTo(3, 3) else RootUpTo(2, 2)
    else RootUpTo(-1, 0)
  }

  /** What dirname returns. */
  function DirnameOf(platform: Platform, p: string): string {
    if p == "" then "."
    else if platform.Win32? then
      if |p| == 1 then (if IsSep(platform, p[0]) then p else ".")
      else match DirRootOf(p)
        case WholePath => p
        case RootUpTo(rootEnd, offset) =>
          var cut := LastCut(platform, p, offset);
          if cut != -1 then p[..cut] else if rootEnd == -1 then "." else p[..rootEnd]
    else
      var rooted := IsSep(platform, p[0]);
      var cut := LastCut(platform, p, 1);
      if cut == -1 then (if rooted then "/" else ".")
      else if rooted && cut == 1 then "//"
      else p[..cut]
  }

  /** The right-to-left scan: the first separator met after a name has been met. */
  method ScanCut(platform: Platform, p: string, lo: nat) returns (end: int)
    requires lo <= |p|
    ensures end == LastCut(platform, p, lo)
  {
    end := -1;
    var matchedSlash := true;
    var i: int := |p| - 1;
    ghost var body := BodyEnd(platform, p, lo, |p|);
    while i >= lo
      invariant lo - 1 <= i < |p| || i == |p| - 1
      invariant matchedSlash ==> body <= i + 1
      invariant !matchedSlash ==> i + 1 < body && LastSep(platform, p, lo, body) == LastSep(platform, p, lo, i + 1)
    {
      if IsSep(platform, p[i]) {
        if !matchedSlash {
          return i;
        }
      } else {
        matchedSlash := false;
      }
      i := i - 1;
    }
  }

  /** The root scan of a win32 path: a UNC share counts as part of the root, a bare one is the whole path. */
  method ScanDirRoot(p: string) returns (r: DirRoot)
    requires |p| >= 2
    ensures r == DirRootOf(p)
  {
    var len := |p|;
    if IsSep(Win32, p[0]) {
      if IsSep(Win32, p[1]) {
        var j := 2;
        while j < len && !IsSep(Win32, p[j])
          invariant 2 <= j <= len
          invariant NameEnd(Win32, p, 2) == NameEnd(Win32, p, j)
        {
          j := j + 1;
        }
        if j < len && j != 2 {
          var last := j;
          while j < len && IsSep(Win32, p[j])
            invariant last <= j <= len
            invariant SepRunEnd(Win32, p, last) == SepRunEnd(Win32, p, j)
          {
            j := j + 1;
          }
          if j < len && j != last {
            last := j;
            while j < len && !IsSep(Win32, p[j])
              invariant last <= j <= len
              invariant NameEnd(Win32, p, last) == NameEnd(Win32, p, j)
            {
              j := j + 1;
            }
            if j == len { return WholePath; }
            if j != last { return RootUpTo(j + 1, j + 1); }
          }
        }
      }
      return RootUpTo(1, 1);
    } else if HasDrivePrefix(p) {
      var rootEnd := if len > 2 && IsSep(Win32, p[2]) then 3 else 2;
      return RootUpTo(rootEnd, rootEnd);
    }
    return RootUpTo(-1, 0);
  }

  method Dirname(platform: Platform, p: string) returns (r: string)
    ensures r == DirnameOf(platform, p)
  {
    if |p| == 0 { return "."; }
    if platform.Win32? {
      if |p| == 1 { return if IsSep(platform, p[0]) then p else "."; }
      var root := ScanDirRoot(p);
      if root.WholePath? { return p; }
      var end := ScanCut(platform, p, root.offset);
      if end == -1 {
        if root.rootEnd == -1 { return "."; }
        end := root.rootEnd;
      }
      return p[..end];
    }
    var rootEnd: int := if IsSep(platform, p[0]) then 1 else -1;
    var end := ScanCut(platform, p, 1);
    if end == -1 { return if rootEnd == 1 then "/" else "."; }
    if rootEnd == 1 && end == 1 { return "//"; }
    return p[..end];
  }

  function WithoutTrailingSeps(platform: Platform, p: string): string {
    p[..BodyEnd(platform, p, 0, |p|)]
  }

  method StripTrailingSeps(platform: Platform, p: string) returns (r: string)
    ensures r == WithoutTrailingSeps(platform, p)
  {
    var end := |p|;
    while end > 0 && IsSep(platform, p[end - 1])
      invariant 0 <= end <= |p|
      invariant BodyEnd(platform, p, 0, |p|) == BodyEnd(platform, p, 0, end)
    {
      end := end - 1;
    }
    r := p[..end];
  }

  predicate EndsWith(s: string, suffix: string) {
    |suffix| <= |s| && s[|s| - |suffix|..] == suffix
  }

  function LastOf(pieces: seq<string>): string
    requires pieces != []
  {
    pieces[|pieces| - 1]
  }

  /** The extension is the empty string when the caller gives none. */
  function Basename(platform: Platform, p: string, ext: string): string {
    if ext != "" && p == ext then "" else
      var prefix := if platform.Win32? && HasDrivePrefix(p) then 2 else 0;
      var name := LastOf(SplitEach(platform, WithoutTrailingSeps(platform, p[prefix..])));
      if ext != "" && name != ext && EndsWith(name, ext) then name[..|name| - |ext|] else name
  }

  // ---- relative and samePath ----

  /** Case folding: the host's lower-casing on win32, nothing on posix. */
  function Fold(platform: Platform, lower: string -> string, s: string): string {
    if platform.Win32? then lower(s) else s
  }

  /** The normal form, less the separator it ends with, unless that belongs to the root. */
  function Trimmed(platform: Platform, p: string): string {
    var n := Normalize(platform, p);
    var root := ParseRoot(platform, n);
    if |n| > |root.canonical| && HasTrailingSep(platform, n) then n[..|n| - 1] else n
  }

  predicate IsUnc(root: ParsedRoot) {
    |root.canonical| >= 2 && root.canonical[..2] == "\\\\"
  }

  /** What two paths must share to have a relative form: the drive, or the server of a UNC path. */
  function RootKey(root: ParsedRoot): string {
    if IsUnc(root) then
      var serverEnd := NameEnd(Win32, root.canonical, 2);
      root.canonical[..if serverEnd < |root.canonical| then serverEnd + 1 else 0]
    else root.canonical
  }

  function SegmentsOf(platform: Platform, p: string, root: ParsedRoot): seq<string>
    requires |root.raw| <= |p|
  {
    (if IsUnc(root) then NonEmpty(SplitEach(Win32, root.canonical[2..])) else [])
    + SplitSegments(platform, p[|root.raw|..])
  }

  /** How many leading segments agree. */
  function CommonPrefix(platform: Platform, lower: string -> string, a: seq<string>, b: seq<string>): (n: nat)
    ensures n <= |a| && n <= |b|
  {
    if a != [] && b != [] && Fold(platform, lower, a[0]) == Fold(platform, lower, b[0])
    then 1 + CommonPrefix(platform, lower, a[1..], b[1..])
    else 0
  }

  function Climb(n: nat): (ups: seq<string>)
    ensures |ups| == n
  {
    seq(n, _ => "..")
  }

  predicate SameRoot(platform: Platform, lower: string -> string, a: ParsedRoot, b: ParsedRoot) {
    a.absolute == b.absolute && Fold(platform, lower, RootKey(a)) == Fold(platform, lower, RootKey(b))
  }

  /** From one list of segments to another: climb out of what is not shared, then go down. */
  function RelativeSegments(platform: Platform, lower: string -> string, segA: seq<string>,
                            segB: seq<string>): seq<string> {
    var common := CommonPrefix(platform, lower, segA, segB);
    Climb(|segA| - common) + segB[common..]
  }

  function RelativePath(platform: Platform, lower: string -> string, from: string, to: string): string {
    var a := Trimmed(platform, from);
    var b := Trimmed(platform, to);
    var rootA := ParseRoot(platform, a);
    var rootB := ParseRoot(platform, b);
    if !SameRoot(platform, lower, rootA, rootB) then b else
      JoinWith(RelativeSegments(platform, lower, SegmentsOf(platform, a, rootA), SegmentsOf(platform, b, rootB)),
               SepOf(platform))
  }

  method ClimbAndDescend(platform: Platform, lower: string -> string, segA: seq<string>, segB: seq<string>)
    returns (r: seq<string>)
    ensures r == RelativeSegments(platform, lower, segA, segB)
  {
    var common := 0;
    assert segA[0..] == segA && segB[0..] == segB;
    while common < |segA| && common < |segB|
          && Fold(platform, lower, segA[common]) == Fold(platform, lower, segB[common])
      invariant common <= |segA| && common <= |segB|
      invariant CommonPrefix(platform, lower, segA, segB)
             == common + CommonPrefix(platform, lower, segA[common..], segB[common..])
    {
      assert segA[common..][1..] == segA[common + 1..] && segB[common..][1..] == segB[common + 1..];
      common := common + 1;
    }
    r := Climb(|segA| - common) + segB[common..];
  }

  method Relative(platform: Platform, lower: string -> string, from: string, to: string) returns (r: string)
    ensures r == RelativePath(platform, lower, from, to)
  {
    var a := Trimmed(platform, from);
    var b := Trimmed(platform, to);
    var rootA := ParseRoot(platform, a);
    var rootB := ParseRoot(platform, b);
    if !SameRoot(platform, lower, rootA, rootB) { return b; }
    var segments := ClimbAndDescend(platform, lower, SegmentsOf(platform, a, rootA), SegmentsOf(platform, b, rootB));
    r := JoinWith(segments, SepOf(platform));
  }

  predicate SamePath(platform: Platform, lower: string -> string, a: string, b: string) {
    Fold(platform, lower, Trimmed(platform, a)) == Fold(platform, lower, Trimmed(platform, b))
  }
}
