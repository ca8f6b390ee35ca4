/** How normalize and relative write what they return: which separator, and where. */
module HostPathSpelling {
  import opened HostPath
  import opened HostPathSegments
  import opened HostPathPlaces
  import opened HostPathRelative

  // ---- Which separator ----

  predicate NoSlash(s: string) {
    forall i | 0 <= i < |s| :: s[i] != '/'
  }

  lemma {:induction false} JoinedNoSlash(names: seq<string>)
    requires AllClean(Win32, names)
    ensures NoSlash(JoinWith(names, '\\'))
  {
    if names != [] {
      assert Clean(Win32, names[0]);
      if |names| > 1 {
        JoinedNoSlash(names[1..]);
      }
    }
  }

  lemma RootNoSlash(p: string)
    ensures NoSlash(ParseRoot(Win32, p).canonical)
  {
    ParsedRootCanonical(Win32, p);
    var canonical := ParseRoot(Win32, p).canonical;
    if server, share :| IsUncRoot(server, share, canonical) {
      assert NoSlash(server) && NoSlash(share);
    }
  }

  /** On win32 no slash is left in a normal form, and so in no joined path. */
  lemma NoSlashWritten(p: string)
    ensures NoSlash(Normalize(Win32, p))
  {
    if p != "" {
      var segments, absolute := Segments(Win32, p), ParseRoot(Win32, p).absolute;
      SegmentsClean(Win32, p[|ParseRoot(Win32, p).raw|..]);
      ResolvedClean(Win32, segments, absolute);
      JoinedNoSlash(Resolved(segments, absolute));
      RootNoSlash(p);
    }
  }

  // ---- Where ----

  /** Separators stand one at a time between names. */
  predicate Tight(platform: Platform, s: string) {
    && s != "" && !IsSep(platform, s[0]) && !IsSep(platform, s[|s| - 1])
    && forall i | 0 <= i < |s| - 1 :: !(IsSep(platform, s[i]) && IsSep(platform, s[i + 1]))
  }

  lemma TightStep(platform: Platform, name: string, c: char, rest: string)
    requires Clean(platform, name) && Tight(platform, rest)
    ensures Tight(platform, name + [c] + rest)
  {
    var s := name + [c] + rest;
    forall i | 0 <= i < |s| - 1 ensures !(IsSep(platform, s[i]) && IsSep(platform, s[i + 1])) {
      if i < |name| {
        assert s[i] == name[i];
      } else {
        assert s[i + 1] == rest[i - |name|];
        if i > |name| {
          assert s[i] == rest[i - |name| - 1];
        }
      }
    }
    assert s[0] == name[0] && s[|s| - 1] == rest[|rest| - 1];
  }

  lemma {:induction false} TightJoined(platform: Platform, names: seq<string>)
    requires AllClean(platform, names) && names != []
    ensures Tight(platform, JoinWith(names, SepOf(platform)))
  {
    assert Clean(platform, names[0]);
    if |names| > 1 {
      TightJoined(platform, names[1..]);
      TightStep(platform, names[0], SepOf(platform), JoinWith(names[1..], SepOf(platform)));
    }
  }

  /** A normal form is a root and a body in which separators stand one at a time; the path's own trailing separator is
      kept once. There is no body only at an absolute root. */
  predicate Spelled(platform: Platform, p: string, normal: string, body: string) {
    var ends := p != "" && (p[|p| - 1] == '/' || (platform.Win32? && p[|p| - 1] == '\\'));
    var place := PlaceOf(platform, p);
    && (if body == "" then place.absolute && normal == place.canonical
        else Tight(platform, body)
             && normal == place.canonical + body +
                          (if !ends then "" else if platform.Win32? then "\\" else "/"))
    && (if place.segments == [] then body == (if place.absolute then "" else ".")
        else body != "" && SplitSegments(platform, body) == place.segments)
  }

  lemma NormalSpelling(platform: Platform, p: string)
    ensures exists body :: Spelled(platform, p, Normalize(platform, p), body)
  {
    var place := PlaceOf(platform, p);
    var body := Tail(platform, place);
    NormalForm(platform, p);
    PlaceShape(platform, p);
    if place.segments != [] {
      TightJoined(platform, place.segments);
      JoinThenSplit(platform, place.segments);
    }
    NormalParts(platform, p, body);
    assert Spelled(platform, p, Normalize(platform, p), body);
  }

  lemma NormalParts(platform: Platform, p: string, body: string)
    requires body == Tail(platform, PlaceOf(platform, p))
    ensures Normalize(platform, p) == PlaceOf(platform, p).canonical + body + KeptTrailing(platform, p)
  {
    NormalForm(platform, p);
  }

  // ---- relative ----

  /** What is shared with the start: the first n names fold alike, and the next ones do not. */
  predicate SharedNames(platform: Platform, lower: string -> string, a: seq<string>, b: seq<string>, n: nat) {
    && n <= |a| && n <= |b|
    && (forall i | 0 <= i < n :: Fold(platform, lower, a[i]) == Fold(platform, lower, b[i]))
    && (n < |a| && n < |b| ==> Fold(platform, lower, a[n]) != Fold(platform, lower, b[n]))
  }

  /** Under one root relative writes a `..` for each name of the start that is not shared, then the names of the target
      that are not, with single separators between. */
  lemma RelativeSpelling(platform: Platform, lower: string -> string, from: string, to: string)
    requires CaseFold(lower) && Stable(platform, from) && Stable(platform, to)
    requires ParseRoot(platform, from).absolute == ParseRoot(platform, to).absolute
    requires if ParseRoot(platform, from).absolute
             then Fold(platform, lower, ParseRoot(platform, from).canonical)
               == Fold(platform, lower, ParseRoot(platform, to).canonical)
             else !platform.Win32?
    ensures var a, b := PlaceOf(platform, from).segments, PlaceOf(platform, to).segments;
            var r := RelativePath(platform, lower, from, to);
            && (r == "" || Tight(platform, r))
            && exists n: nat :: SharedNames(platform, lower, a, b, n)
                                && SplitSegments(platform, r) == seq(|a| - n, _ => "..") + b[n..]
  {
    var a, b := PlaceOf(platform, from).segments, PlaceOf(platform, to).segments;
    var n := CommonPrefix(platform, lower, a, b);
    RelativeText(platform, lower, from, to);
    CommonShape(platform, lower, a, b);
    assert SharedNames(platform, lower, a, b, n);
    if RelativeSegments(platform, lower, a, b) != [] {
      TightJoined(platform, RelativeSegments(platform, lower, a, b));
    }
  }
}
