/** On win32 either separator may be written for the other: normalize, join and relative return the same text. */
module HostPathAlike {
  import opened HostPath

  /** Texts that differ only in which separators are written. */
  predicate Alike(p: string, q: string) {
    |p| == |q| && forall i | 0 <= i < |p| :: p[i] == q[i] || (IsSep(Win32, p[i]) && IsSep(Win32, q[i]))
  }

  lemma AlikeEnds(p: string, q: string, i: nat)
    requires Alike(p, q) && i <= |p|
    ensures NameEnd(Win32, p, i) == NameEnd(Win32, q, i) && SepRunEnd(Win32, p, i) == SepRunEnd(Win32, q, i)
    decreases |p| - i
  {
    if i < |p| {
      AlikeEnds(p, q, i + 1);
    }
  }

  lemma AlikeName(p: string, q: string, i: nat, j: nat)
    requires Alike(p, q) && i <= j <= |p| && forall k | i <= k < j :: !IsSep(Win32, p[k])
    ensures p[i..j] == q[i..j]
  {
    forall k | i <= k < j ensures p[k] == q[k] {
    }
  }

  lemma AlikeUnc(p: string, q: string)
    requires Alike(p, q)
    ensures MatchUnc(p) == MatchUnc(q)
  {
    if StartsWithTwoSeps(p) {
      AlikeEnds(p, q, 2);
      var serverEnd := NameEnd(Win32, p, 2);
      AlikeEnds(p, q, serverEnd);
      var shareStart := SepRunEnd(Win32, p, serverEnd);
      AlikeEnds(p, q, shareStart);
      var shareEnd := NameEnd(Win32, p, shareStart);
      AlikeEnds(p, q, shareEnd);
      AlikeName(p, q, 2, serverEnd);
      AlikeName(p, q, shareStart, shareEnd);
    }
  }

  lemma AlikeRoot(p: string, q: string)
    requires Alike(p, q)
    ensures var a, b := ParseRoot(Win32, p), ParseRoot(Win32, q);
            a.canonical == b.canonical && a.absolute == b.absolute && |a.raw| == |b.raw|
  {
    AlikeUnc(p, q);
    AlikeDrive(p, q);
  }

  lemma AlikeDrive(p: string, q: string)
    requires Alike(p, q)
    ensures HasDrivePrefix(p) == HasDrivePrefix(q) && (HasDrivePrefix(p) ==> p[..2] == q[..2])
  {
    if HasDrivePrefix(p) || HasDrivePrefix(q) {
      assert p[0] == q[0] && p[1] == q[1];
    }
  }

  lemma {:induction false} AlikeSplit(p: string, q: string)
    requires Alike(p, q)
    ensures SplitRuns(Win32, p) == SplitRuns(Win32, q)
    decreases |p|
  {
    var i := NameEnd(Win32, p, 0);
    AlikeEnds(p, q, 0);
    AlikeName(p, q, 0, i);
    if i < |p| {
      AlikeEnds(p, q, i);
      AlikeSplit(p[SepRunEnd(Win32, p, i)..], q[SepRunEnd(Win32, p, i)..]);
    } else {
      assert p[0..i] == p && q[0..i] == q;
    }
  }

  lemma NormalizeAlike(p: string, q: string)
    requires Alike(p, q)
    ensures Normalize(Win32, p) == Normalize(Win32, q)
  {
    if p != "" {
      AlikeRoot(p, q);
      var n := |ParseRoot(Win32, p).raw|;
      AlikeSplit(p[n..], q[n..]);
    }
  }

  // ---- join ----

  predicate AllAlike(ps: seq<string>, qs: seq<string>) {
    |ps| == |qs| && forall i | 0 <= i < |ps| :: Alike(ps[i], qs[i])
  }

  lemma {:induction false} AlikeGiven(ps: seq<string>, qs: seq<string>)
    requires AllAlike(ps, qs)
    ensures AllAlike(NonEmpty(ps), NonEmpty(qs))
    decreases |ps|
  {
    if ps != [] {
      assert Alike(ps[0], qs[0]);
      AlikeGiven(ps[1..], qs[1..]);
    }
  }

  lemma {:induction false} AlikeJoined(ps: seq<string>, qs: seq<string>)
    requires AllAlike(ps, qs)
    ensures Alike(JoinWith(ps, '\\'), JoinWith(qs, '\\'))
    decreases |ps|
  {
    if ps != [] {
      assert Alike(ps[0], qs[0]);
      AlikeJoined(ps[1..], qs[1..]);
    }
  }

  lemma AlikeCollapsed(p: string, q: string)
    requires Alike(p, q)
    ensures Alike(CollapseLeadingSeps(p), CollapseLeadingSeps(q))
  {
    AlikeEnds(p, q, 0);
  }

  lemma JoinAlike(ps: seq<string>, qs: seq<string>)
    requires AllAlike(ps, qs)
    ensures Join(Win32, ps) == Join(Win32, qs)
  {
    AlikeGiven(ps, qs);
    var a, b := NonEmpty(ps), NonEmpty(qs);
    if a != [] {
      assert Alike(a[0], b[0]);
      AlikeJoined(a, b);
      var x, y := JoinWith(a, '\\'), JoinWith(b, '\\');
      AlikeCollapsed(x, y);
      NormalizeAlike(x, y);
      NormalizeAlike(CollapseLeadingSeps(x), CollapseLeadingSeps(y));
    }
  }

  /** relative and samePath read paths only through normalize. */
  lemma RelativeAlike(lower: string -> string, from: string, to: string, from': string, to': string)
    requires Alike(from, from') && Alike(to, to')
    ensures RelativePath(Win32, lower, from, to) == RelativePath(Win32, lower, from', to')
    ensures SamePath(Win32, lower, from, to) == SamePath(Win32, lower, from', to')
  {
    NormalizeAlike(from, from');
    NormalizeAlike(to, to');
  }
}
