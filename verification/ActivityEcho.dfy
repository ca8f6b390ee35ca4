/** Typing, resizing and their repaints never make an agent look active. */
module ActivityEcho {
  import opened Options
  import opened Runs
  import opened AgentTitles
  import opened ActivityTracker
  import opened ActivityRuns

  // ---- The byte rung needs two fresh evaluations in a row ----

  predicate Above(c: Config, check: ByteCheck) {
    check.sum >= c.activeThresholdBytes && check.arrived > 0
  }

  predicate StreakBacked(c: Config, streak: nat, checks: seq<ByteCheck>) {
    streak <= |checks| && forall i | |checks| - streak <= i < |checks| :: Above(c, checks[i])
  }

  predicate EchoInvariant(c: Config, w: World) {
    && w.acceptedAtCheck <= |w.accepted|
    && (w.s.freshBytes <==> w.acceptedAtCheck < |w.accepted|)
    && StreakBacked(c, w.s.aboveStreak, w.checks)
  }

  /** What the shared screen/title rule leaves alone. */
  predicate Untouched(s: State, t: State) {
    && t.aboveStreak == s.aboveStreak && t.freshBytes == s.freshBytes
    && t.titleAuthoritative == s.titleAuthoritative && t.titleState == s.titleState
    && t.screenState == s.screenState
    && t.inputGraceUntil == s.inputGraceUntil && t.resizeGraceUntil == s.resizeGraceUntil
  }

  lemma PublishStreak(s: State, now: int, sum: nat, desired: Activity, status: Option<Status>, rung: DecidedBy)
    ensures Untouched(s, Publish(s, now, sum, desired, status, rung).state)
  {
  }

  lemma HoldStreak(s: State, now: int)
    ensures Untouched(s, HoldIdle(s, now)) && Untouched(s, ResetIdleHold(s))
  {
  }

  lemma ApplyStreak(s: State, now: int, sum: nat, p: PaneState, rung: DecidedBy)
    ensures Untouched(s, Apply(s, now, sum, p, rung).state)
  {
    var desired := if Resting(p) then Inactive else Active;
    HoldStreak(s, now);
    PublishStreak(HoldIdle(s, now), now, sum, desired, StatusOf(p), rung);
    PublishStreak(ResetIdleHold(s), now, sum, desired, StatusOf(p), rung);
  }

  lemma LadderStreak(c: Config, s: State, now: int, sum: nat)
    ensures var t := RunLadder(c, s, now, sum).state;
            if Decide(s).ByBytes?
            then !t.freshBytes && t.aboveStreak == (if IsAbove(c, s, sum) then s.aboveStreak + 1 else 0)
            else t.freshBytes == s.freshBytes && t.aboveStreak == s.aboveStreak
  {
    match Decide(s)
    case ByScreen(p) => ApplyStreak(s, now, sum, p, Screen);
    case ByTitle(p) => ApplyStreak(if Engaged(p) then s.(titleAuthoritative := true) else s, now, sum, p, Title);
    case ByBytes =>
  }

  lemma PreparedStreak(c: Config, s: State, e: Event)
    ensures var t := Prepared(c, s, e);
            t.freshBytes == s.freshBytes && t.aboveStreak == s.aboveStreak && t.state == s.state
  {
  }

  lemma EchoStep(c: Config, w: World, e: Event)
    requires EchoInvariant(c, w)
    ensures EchoInvariant(c, Observe(c, w, e))
  {
    if Evaluates(e) {
      var t := Prepared(c, w.s, e);
      PreparedStreak(c, w.s, e);
      LadderStreak(c, t, e.ts, WindowSum(c, t.samples, e.ts));
    }
  }

  lemma {:induction false} EchoAlways(c: Config, events: seq<Event>)
    requires Possible(c, events)
    ensures EchoInvariant(c, Run(c, events))
  {
    if events != [] {
      EchoAlways(c, Init(events));
      EchoStep(c, Run(c, Init(events)), Last(events));
    }
  }

  /** What a check says is told by the outputs accepted until then: their sum over the window, and how many came since
      the check before. */
  predicate Told(c: Config, checks: seq<ByteCheck>, i: nat, accepted: seq<Sample>)
    requires i < |checks|
  {
    && checks[i].accepted <= |accepted|
    && checks[i].sum == WindowSum(c, accepted[..checks[i].accepted], checks[i].at)
    && checks[i].arrived == checks[i].accepted - (if i == 0 then 0 else checks[i - 1].accepted)
  }

  predicate ChecksTold(c: Config, w: World) {
    && w.acceptedAtCheck == (if w.checks == [] then 0 else w.checks[|w.checks| - 1].accepted)
    && forall i | 0 <= i < |w.checks| :: Told(c, w.checks, i, w.accepted)
  }

  lemma ToldLater(c: Config, checks: seq<ByteCheck>, after: seq<ByteCheck>, i: nat, accepted: seq<Sample>,
                  more: seq<Sample>)
    requires i < |checks| && checks <= after && accepted <= more && Told(c, checks, i, accepted)
    ensures Told(c, after, i, more)
  {
    assert more[..checks[i].accepted] == accepted[..checks[i].accepted];
  }

  lemma ToldStep(c: Config, w: World, e: Event)
    requires ChecksTold(c, w) && WindowAgrees(c, w) && w.now <= e.ts && w.acceptedAtCheck <= |w.accepted|
    ensures ChecksTold(c, Observe(c, w, e))
  {
    var u := Observe(c, w, e);
    forall i | 0 <= i < |u.checks| ensures Told(c, u.checks, i, u.accepted) {
      if i < |w.checks| {
        ToldLater(c, w.checks, u.checks, i, w.accepted, u.accepted);
      } else {
        ToldNow(c, w, e);
      }
    }
  }

  /** The check an evaluation adds. */
  lemma ToldNow(c: Config, w: World, e: Event)
    requires ChecksTold(c, w) && WindowAgrees(c, w) && w.now <= e.ts && w.acceptedAtCheck <= |w.accepted|
    requires |Observe(c, w, e).checks| > |w.checks|
    ensures Told(c, Observe(c, w, e).checks, |w.checks|, Observe(c, w, e).accepted)
  {
    SumsAgree(c, w, e);
    assert w.accepted[..|w.accepted|] == w.accepted;
  }

  lemma {:induction false} ToldAlways(c: Config, events: seq<Event>)
    requires Possible(c, events)
    ensures ChecksTold(c, Run(c, events))
  {
    if events != [] {
      ToldAlways(c, Init(events));
      WindowAlwaysAgrees(c, Init(events));
      EchoAlways(c, Init(events));
      ToldStep(c, Run(c, Init(events)), Last(events));
    }
  }

  lemma PromotionNeedsStreak(c: Config, s: State, now: int, sum: nat)
    requires s.state == Inactive
    ensures var o := RunLadder(c, s, now, sum);
            o.emitted.Some? && o.emitted.value.state == Active && o.emitted.value.decidedBy == Bytes
            ==> Decide(s).ByBytes? && IsAbove(c, s, sum) && s.aboveStreak + 1 >= ACTIVE_CONSECUTIVE_TICKS
  {
  }

  predicate PromotesByBytes(o: Outcome) {
    o.emitted.Some? && o.emitted.value.state == Active && o.emitted.value.decidedBy == Bytes
  }

  predicate TwoAbove(c: Config, checks: seq<ByteCheck>, now: int) {
    var n := |checks|;
    n >= 2 && checks[n - 1].at == now && Above(c, checks[n - 1]) && Above(c, checks[n - 2])
  }

  lemma PromotedStep(c: Config, w: World, e: Event)
    requires EchoInvariant(c, w) && w.s.state == Inactive && PromotesByBytes(Next(c, w.s, e))
    ensures TwoAbove(c, Observe(c, w, e).checks, e.ts)
  {
    if Evaluates(e) {
      var t := Prepared(c, w.s, e);
      PreparedStreak(c, w.s, e);
      PromotionNeedsStreak(c, t, e.ts, WindowSum(c, t.samples, e.ts));
    } else {
      SilentOtherwise(c, w.s, e);
    }
  }

  /** Output volume promotes idle to active only on two evaluations in a row, each with output accepted since the one
      before and at least the threshold of accepted bytes in its window. */
  lemma EchoNeverPromotes(c: Config, events: seq<Event>, e: Event)
    requires Possible(c, events) && Enabled(Run(c, events), e) && Run(c, events).s.state == Inactive
    requires PromotesByBytes(Next(c, Run(c, events).s, e))
    ensures var u := Run(c, events + [e]);
            && TwoAbove(c, u.checks, e.ts)
            && Told(c, u.checks, |u.checks| - 1, u.accepted) && Told(c, u.checks, |u.checks| - 2, u.accepted)
  {
    RunSnoc(c, events, e);
    EchoAlways(c, events);
    ToldAlways(c, events + [e]);
    PromotedStep(c, Run(c, events), e);
  }

  // ---- Silence ends activity ----

  /** When the byte rung last found enough fresh output; zero if never. */
  function LastAbove(c: Config, checks: seq<ByteCheck>): int {
    if checks == [] then 0
    else if Above(c, checks[|checks| - 1]) then checks[|checks| - 1].at
    else LastAbove(c, checks[..|checks| - 1])
  }

  lemma LadderLastAbove(c: Config, s: State, now: int, sum: nat)
    ensures RunLadder(c, s, now, sum).state.lastAboveThresholdTs
         == if Decide(s).ByBytes? && IsAbove(c, s, sum) then now else s.lastAboveThresholdTs
  {
    match Decide(s)
    case ByScreen(p) => ApplyLastAbove(s, now, sum, p, Screen);
    case ByTitle(p) => ApplyLastAbove(if Engaged(p) then s.(titleAuthoritative := true) else s, now, sum, p, Title);
    case ByBytes =>
  }

  lemma ApplyLastAbove(s: State, now: int, sum: nat, p: PaneState, rung: DecidedBy)
    ensures Apply(s, now, sum, p, rung).state.lastAboveThresholdTs == s.lastAboveThresholdTs
  {
  }

  lemma {:induction false} LastAboveTracked(c: Config, events: seq<Event>)
    requires Possible(c, events)
    ensures Run(c, events).s.lastAboveThresholdTs == LastAbove(c, Run(c, events).checks)
  {
    if events != [] {
      LastAboveTracked(c, Init(events));
      EchoAlways(c, Init(events));
      var w, e := Run(c, Init(events)), Last(events);
      if Evaluates(e) {
        var t := Prepared(c, w.s, e);
        LadderLastAbove(c, t, e.ts, WindowSum(c, t.samples, e.ts));
      }
    }
  }

  lemma BytesRungIdles(c: Config, s: State, now: int, sum: nat)
    requires s.state == Active
    ensures BytesRung(c, s, now, sum).state.state == Inactive
       <==> !IsAbove(c, s, sum) && now - s.lastAboveThresholdTs >= c.idleAfterMs
  {
  }

  /** Output volume ends activity exactly when this evaluation finds too little and the last one that found enough is
      long enough ago. */
  lemma SilenceEndsActivity(c: Config, events: seq<Event>, e: Event)
    requires Possible(c, events) && Enabled(Run(c, events), e) && Evaluates(e)
    requires Run(c, events).s.state == Active && Decide(Prepared(c, Run(c, events).s, e)).ByBytes?
    ensures var w, u := Run(c, events), Run(c, events + [e]);
            && u.checks != []
            && (u.s.state == Inactive
                <==> !Above(c, u.checks[|u.checks| - 1]) && e.ts - LastAbove(c, w.checks) >= c.idleAfterMs)
  {
    var w := Run(c, events);
    assert Init(events + [e]) == events;
    EchoAlways(c, events);
    LastAboveTracked(c, events);
    var t := Prepared(c, w.s, e);
    PreparedStreak(c, w.s, e);
    BytesRungIdles(c, t, e.ts, WindowSum(c, t.samples, e.ts));
  }

  // ---- The graces, told from the events ----

  predicate Covers(c: Config, e: Event, t: int) {
    (e.Input? && t < e.ts + c.inputGraceMs) || (e.Resize? && t < e.ts + c.resizeGraceMs)
  }

  /** Some earlier keystroke or resize covers time t. */
  predicate Graced(c: Config, events: seq<Event>, t: int) {
    events != [] && (Covers(c, Last(events), t) || Graced(c, Init(events), t))
  }

  predicate InputCovers(c: Config, events: seq<Event>, t: int) {
    events != [] && ((Last(events).Input? && t < Last(events).ts + c.inputGraceMs) || InputCovers(c, Init(events), t))
  }

  predicate ResizeCovers(c: Config, events: seq<Event>, t: int) {
    events != [] && ((Last(events).Resize? && t < Last(events).ts + c.resizeGraceMs)
                     || ResizeCovers(c, Init(events), t))
  }

  lemma {:induction false} CoversEither(c: Config, events: seq<Event>, t: int)
    ensures Graced(c, events, t) <==> InputCovers(c, events, t) || ResizeCovers(c, events, t)
  {
    if events != [] {
      CoversEither(c, Init(events), t);
    }
  }

  /** A later keystroke covers whatever an earlier one does. */
  lemma {:induction false} EarlierCoversLess(c: Config, events: seq<Event>, t: int)
    requires Possible(c, events)
    ensures InputCovers(c, events, t) ==> t < Run(c, events).now + c.inputGraceMs
    ensures ResizeCovers(c, events, t) ==> t < Run(c, events).now + c.resizeGraceMs
    ensures Run(c, events).now >= 0
  {
    if events != [] {
      EarlierCoversLess(c, Init(events), t);
    }
  }

  lemma GracesStep(c: Config, s: State, e: Event)
    ensures var t := Next(c, s, e).state;
            && t.inputGraceUntil == (if e.Input? then e.ts + c.inputGraceMs else s.inputGraceUntil)
            && t.resizeGraceUntil == (if e.Resize? then e.ts + c.resizeGraceMs else s.resizeGraceUntil)
  {
    if Evaluates(e) {
      var t := Prepared(c, s, e);
      var sum := WindowSum(c, t.samples, e.ts);
      match Decide(t)
      case ByScreen(p) => ApplyStreak(t, e.ts, sum, p, Screen);
      case ByTitle(p) => ApplyStreak(if Engaged(p) then t.(titleAuthoritative := true) else t, e.ts, sum, p, Title);
      case ByBytes => BytesGraces(c, t, e.ts, sum);
    }
  }

  lemma BytesGraces(c: Config, s: State, now: int, sum: nat)
    ensures var t := BytesRung(c, s, now, sum).state;
            t.inputGraceUntil == s.inputGraceUntil && t.resizeGraceUntil == s.resizeGraceUntil
  {
  }

  lemma {:induction false} GraceFields(c: Config, events: seq<Event>, t: int)
    requires Possible(c, events) && Run(c, events).now <= t
    ensures t < Run(c, events).s.inputGraceUntil <==> InputCovers(c, events, t)
    ensures t < Run(c, events).s.resizeGraceUntil <==> ResizeCovers(c, events, t)
  {
    EarlierCoversLess(c, events, t);
    if events != [] {
      GraceFields(c, Init(events), t);
      EarlierCoversLess(c, Init(events), t);
      GracesStep(c, Run(c, Init(events)).s, Last(events));
    }
  }

  /** The two deadlines decide exactly what the history of keystrokes and resizes says. */
  lemma GraceIsHistory(c: Config, events: seq<Event>, t: int)
    requires Possible(c, events) && Run(c, events).now <= t
    ensures InGrace(Run(c, events).s, t) <==> Graced(c, events, t)
  {
    GraceFields(c, events, t);
    CoversEither(c, events, t);
  }

  // ---- A run of echo stays idle ----

  predicate Calm(e: Event) {
    (e.ScreenState? ==> !Engaged(e.screen)) && (e.TitleState? ==> !Engaged(e.title))
  }

  /** No screen or title reads working or blocked, and every output falls within a grace. */
  predicate OnlyEcho(c: Config, events: seq<Event>) {
    events == []
    || (OnlyEcho(c, Init(events)) && Calm(Last(events))
        && (Last(events).Record? ==> Graced(c, Init(events), Last(events).ts)))
  }

  predicate Dormant(s: State) {
    && s.state == Inactive && !s.freshBytes && s.aboveStreak == 0
    && !s.titleAuthoritative && !Engaged(s.titleState) && !Engaged(s.screenState)
  }

  lemma DormantApply(s: State, now: int, sum: nat, p: PaneState)
    requires Dormant(s) && Resting(p)
    ensures var o := Apply(s, now, sum, p, Screen);
            Dormant(o.state) && (o.emitted.Some? ==> o.emitted.value.state == Inactive)
  {
    ApplyStreak(s, now, sum, p, Screen);
  }

  lemma DormantLadder(c: Config, s: State, now: int, sum: nat)
    requires Dormant(s)
    ensures var o := RunLadder(c, s, now, sum);
            Dormant(o.state) && (o.emitted.Some? ==> o.emitted.value.state == Inactive)
  {
    match Decide(s)
    case ByScreen(p) => DormantApply(s, now, sum, p);
    case ByTitle(p) =>
    case ByBytes =>
  }

  lemma DormantStep(c: Config, s: State, e: Event)
    requires Dormant(s) && Calm(e) && (e.Record? ==> InGrace(s, e.ts))
    ensures var o := Next(c, s, e);
            Dormant(o.state) && (o.emitted.Some? ==> o.emitted.value.state == Inactive)
  {
    if Evaluates(e) {
      var t := Prepared(c, s, e);
      DormantLadder(c, t, e.ts, WindowSum(c, t.samples, e.ts));
    }
  }

  /** A run of nothing but echo never leaves idle and never reports active. */
  lemma {:induction false} EchoStaysIdle(c: Config, events: seq<Event>)
    requires Possible(c, events) && OnlyEcho(c, events)
    ensures var w := Run(c, events);
            w.s.state == Inactive && forall i | 0 <= i < |w.log| :: w.log[i].state == Inactive
    ensures Dormant(Run(c, events).s)
  {
    if events != [] {
      EchoStaysIdle(c, Init(events));
      var w := Run(c, Init(events));
      if Last(events).Record? {
        GraceIsHistory(c, Init(events), Last(events).ts);
      }
      DormantStep(c, w.s, Last(events));
    }
  }

  // ---- Title authority ----

  lemma AuthorityStep(c: Config, s: State, e: Event)
    requires s.titleAuthoritative
    ensures var o := Next(c, s, e);
            o.state.titleAuthoritative && (o.emitted.Some? ==> o.emitted.value.decidedBy != Bytes)
  {
    if Evaluates(e) {
      var t := Prepared(c, s, e);
      var sum := WindowSum(c, t.samples, e.ts);
      match Decide(t)
      case ByScreen(p) => ApplyStreak(t, e.ts, sum, p, Screen);
      case ByTitle(p) => ApplyStreak(if Engaged(p) then t.(titleAuthoritative := true) else t, e.ts, sum, p, Title);
    }
  }

  /** Once a title has read working or blocked, output volume never decides again. */
  lemma {:induction false} TitleKeepsAuthority(c: Config, events: seq<Event>, more: seq<Event>)
    requires Run(c, events).s.titleAuthoritative
    ensures Run(c, events + more).s.titleAuthoritative
    ensures var before, after := Run(c, events).log, Run(c, events + more).log;
            |before| <= |after| && forall i | |before| <= i < |after| :: after[i].decidedBy != Bytes
  {
    if more == [] {
      assert events + more == events;
    } else {
      var init := Init(more);
      assert Init(events + more) == events + init;
      TitleKeepsAuthority(c, events, init);
      AuthorityStep(c, Run(c, events + init).s, Last(more));
    }
  }

  /** A working or blocked title takes authority at once. */
  lemma TitleTakesAuthority(c: Config, events: seq<Event>, t: int, p: PaneState, more: seq<Event>)
    requires Engaged(p)
    ensures var since := events + [TitleState(t, p)];
            var before, after := Run(c, since).log, Run(c, since + more).log;
            |before| <= |after| && forall i | |before| <= i < |after| :: after[i].decidedBy != Bytes
  {
    var since := events + [TitleState(t, p)];
    assert Init(since) == events;
    TitleKeepsAuthority(c, since, more);
  }
}
