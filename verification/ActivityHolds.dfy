/** How long an idle hold can last: it survives the byte rung, and with it the end of the activity it was opened in. */
module ActivityHolds {
  import opened Options
  import opened Runs
  import opened AgentTitles
  import opened ActivityTracker
  import opened ActivityRuns

  // ---- What is notified while a hold is open ----

  /** How many notifications there were when the hold opened; all of them when none is open. */
  function NoticedAtOpening(w: World): nat {
    var n := HeldReadings(w.verdicts);
    if n == 0 then |w.log| else w.verdicts[|w.verdicts| - n].noticed
  }

  predicate OnlyBytesSince(log: seq<Transition>, k: nat) {
    k <= |log| && forall i | k <= i < |log| :: log[i].decidedBy == Bytes
  }

  /** All readings held back fall in one stretch of activity: idle has not been notified since the first of them. */
  predicate OneStretch(w: World) {
    forall i | NoticedAtOpening(w) <= i < |w.log| :: w.log[i].state == Active
  }

  lemma OpeningSnoc(verdicts: seq<Verdict>, v: Verdict)
    requires HeldBack(v)
    ensures var after := verdicts + [v];
            var n := HeldReadings(verdicts);
            && HeldReadings(after) == n + 1
            && after[|after| - (n + 1)] == if n == 0 then v else verdicts[|verdicts| - n]
  {
    HeldSnoc(verdicts, v);
  }

  lemma BytesNotify(c: Config, s: State, now: int, sum: nat)
    requires Decide(s).ByBytes?
    ensures var o := RunLadder(c, s, now, sum); o.emitted.Some? ==> o.emitted.value.decidedBy == Bytes
  {
  }

  lemma EvaluatedOpening(c: Config, w: World, e: Event)
    requires Evaluates(e) && OnlyBytesSince(w.log, NoticedAtOpening(w))
    ensures var u := Observe(c, w, e); OnlyBytesSince(u.log, NoticedAtOpening(u))
  {
    var t := Prepared(c, w.s, e);
    var sum := WindowSum(c, t.samples, e.ts);
    var u := Observe(c, w, e);
    ObservedVerdicts(c, w, e);
    if Decide(t).ByBytes? {
      BytesNotify(c, t, e.ts, sum);
    } else {
      var v := VerdictOf(Decide(t), e.ts, t.state == Active, RunLadder(c, t, e.ts, sum).emitted.Some?, |w.log|);
      HeldSnoc(w.verdicts, v);
      if HeldBack(v) {
        OpeningSnoc(w.verdicts, v);
      }
    }
  }

  /** In every run: since the hold opened only the byte rung has notified. */
  lemma {:induction false} OnlyBytesWhileHeld(c: Config, events: seq<Event>)
    requires Possible(c, events)
    ensures var w := Run(c, events); OnlyBytesSince(w.log, NoticedAtOpening(w))
  {
    if events != [] {
      OnlyBytesWhileHeld(c, Init(events));
      var w, e := Run(c, Init(events)), Last(events);
      if Evaluates(e) {
        EvaluatedOpening(c, w, e);
      } else {
        SilentOtherwise(c, w.s, e);
      }
    }
  }

  /** So the readings held back fall in one stretch of activity exactly when the byte rung has not notified idle since
      the first of them. */
  lemma OneStretchExact(c: Config, events: seq<Event>)
    requires Possible(c, events)
    ensures var w := Run(c, events);
            OneStretch(w)
            <==> !exists i | NoticedAtOpening(w) <= i < |w.log| ::
                   w.log[i].state == Inactive && w.log[i].decidedBy == Bytes
  {
    OnlyBytesWhileHeld(c, events);
  }

  // ---- A screen that is always read ----

  predicate AlwaysRead(events: seq<Event>) {
    forall i | 0 <= i < |events| && events[i].ScreenState? :: events[i].screen != Unknown
  }

  predicate QuietHolding(w: World) {
    HeldReadings(w.verdicts) > 0 ==> w.s.screenState != Unknown && NoticedAtOpening(w) == |w.log|
  }

  lemma LadderScreen(c: Config, s: State, now: int, sum: nat)
    ensures RunLadder(c, s, now, sum).state.screenState == s.screenState
  {
    match Decide(s)
    case ByScreen(p) => ApplyHold(s, now, sum, p, Screen);
    case ByTitle(p) => ApplyHold(if Engaged(p) then s.(titleAuthoritative := true) else s, now, sum, p, Title);
    case ByBytes => BytesHold(c, s, now, sum);
  }

  /** What a verdict leaves of a quiet hold. */
  lemma QuietVerdict(w: World, u: World, v: Verdict)
    requires QuietHolding(w) && u.verdicts == w.verdicts + [v] && v.noticed == |w.log|
    requires HeldBack(v) ==> u.log == w.log && u.s.screenState != Unknown
    ensures QuietHolding(u)
  {
    HeldSnoc(w.verdicts, v);
    if HeldBack(v) {
      OpeningSnoc(w.verdicts, v);
    }
  }

  lemma QuietBytes(c: Config, w: World, e: Event)
    requires QuietHolding(w) && Evaluates(e) && Decide(Prepared(c, w.s, e)).ByBytes?
    requires e.ScreenState? ==> e.screen != Unknown
    ensures QuietHolding(Observe(c, w, e))
  {
    ObservedVerdicts(c, w, e);
  }

  lemma QuietEvaluated(c: Config, w: World, e: Event)
    requires QuietHolding(w) && Evaluates(e) && (e.ScreenState? ==> e.screen != Unknown)
    ensures QuietHolding(Observe(c, w, e))
  {
    var t := Prepared(c, w.s, e);
    var sum := WindowSum(c, t.samples, e.ts);
    if Decide(t).ByBytes? {
      QuietBytes(c, w, e);
    } else {
      ObservedVerdicts(c, w, e);
      LadderScreen(c, t, e.ts, sum);
      QuietVerdict(w, Observe(c, w, e),
                   VerdictOf(Decide(t), e.ts, t.state == Active, RunLadder(c, t, e.ts, sum).emitted.Some?, |w.log|));
    }
  }

  lemma QuietUnevaluated(c: Config, w: World, e: Event)
    requires QuietHolding(w) && !Evaluates(e)
    ensures QuietHolding(Observe(c, w, e))
  {
    SilentOtherwise(c, w.s, e);
  }

  /** When the screen is never read as unknown, nothing at all is notified while a hold is open: all its readings fall
      in one stretch of activity. */
  lemma {:induction false} AlwaysReadHolds(c: Config, events: seq<Event>)
    requires Possible(c, events) && AlwaysRead(events)
    ensures QuietHolding(Run(c, events)) && OneStretch(Run(c, events))
  {
    if events != [] {
      var w, e := Run(c, Init(events)), Last(events);
      AlwaysReadHolds(c, Init(events));
      if Evaluates(e) {
        QuietEvaluated(c, w, e);
      } else {
        QuietUnevaluated(c, w, e);
      }
    }
  }

  // ---- A hold that outlives its activity ----

  /** A hold opened at 2 by one idle reading, after one notification; since then the screen has not been read, and the
      byte rung decides. */
  predicate Outliving(w: World) {
    && w.s.idleHoldStart == Some(2) && w.s.idleHoldCount == 1
    && w.s.screenState == Unknown && w.s.titleState == Unknown && !w.s.titleAuthoritative && w.s.ticking
    && w.s.inputGraceUntil == 0 && w.s.resizeGraceUntil == 0
    && |w.verdicts| == 2 && w.verdicts[1].noticed == 1
  }

  /** One evaluation of the byte rung. */
  lemma OutlivingTick(c: Config, w: World, now: int)
    requires Outliving(w)
    ensures var u := Observe(c, w, Tick(now));
            var sum := WindowSum(c, Since(w.s.samples, now - c.windowMs), now);
            var above := IsAbove(c, w.s, sum);
            && Outliving(u) && u.now == now && w.log <= u.log
            && u.s.aboveStreak == (if above then w.s.aboveStreak + 1 else 0)
            && (w.s.state == Inactive ==>
                  u.s.state == (if u.s.aboveStreak >= ACTIVE_CONSECUTIVE_TICKS then Active else Inactive))
  {
  }

  lemma OutlivingIdles(c: Config, w: World, now: int)
    requires Outliving(w) && w.s.state == Active && !w.s.freshBytes && now - w.s.lastAboveThresholdTs >= c.idleAfterMs
    ensures var u := Observe(c, w, Tick(now));
            && u.s.state == Inactive && u.s.aboveStreak == 0
            && |u.log| == |w.log| + 1 && Last(u.log).state == Inactive
  {
  }

  lemma OutlivingRecord(c: Config, w: World, now: int, bytes: nat)
    requires Outliving(w) && now >= 0
    ensures var u := Observe(c, w, Record(now, bytes));
            && Outliving(u) && u.now == now && u.log == w.log && u.s.state == w.s.state
            && u.s.aboveStreak == w.s.aboveStreak
            && u.s.freshBytes && u.s.samples == w.s.samples + [Sample(now, bytes)]
  {
  }

  /** The window holds at least its newest sample. */
  lemma NewestCounts(samples: seq<Sample>, x: Sample, cutoff: int)
    requires x.ts >= cutoff
    ensures Total(Since(Since(samples + [x], cutoff), cutoff)) >= x.bytes
  {
    SinceTwice(samples + [x], cutoff, cutoff);
    SinceSnoc(samples, x, cutoff);
    var before := Since(samples, cutoff);
    assert (before + [x])[..|before|] == before;
  }

  /** Enough output, then a tick. */
  lemma OutputThenTick(c: Config, events: seq<Event>, now: int, n: nat)
    requires Possible(c, events) && Outliving(Run(c, events)) && 0 <= Run(c, events).now <= now
    requires n >= c.activeThresholdBytes && Run(c, events).s.state == Inactive
    ensures var w, u := Run(c, events), Run(c, events + [Record(now, n)] + [Tick(now)]);
            && Possible(c, events + [Record(now, n)] + [Tick(now)])
            && Outliving(u) && u.now == now && w.log <= u.log && u.s.aboveStreak == w.s.aboveStreak + 1
            && u.s.state == (if u.s.aboveStreak >= ACTIVE_CONSECUTIVE_TICKS then Active else Inactive)
  {
    var w := Run(c, events);
    var recorded := events + [Record(now, n)];
    RunSnoc(c, events, Record(now, n));
    OutlivingRecord(c, w, now, n);
    RunSnoc(c, recorded, Tick(now));
    NewestCounts(w.s.samples, Sample(now, n), now - c.windowMs);
    OutlivingTick(c, Run(c, recorded), now);
  }

  /** A working screen, one idle reading, and then none. */
  const INTERRUPTED: seq<Event> :=
    [Start(0), ScreenState(1, Working)] + [ScreenState(2, Idle)] + [ScreenState(3, Unknown)] + [Recheck(102)]

  const HELD := SHOWN.(screenState := Idle, idleHoldStart := Some(2), idleHoldCount := 1, idleHoldTimer := Some(102))

  /** One notification before the hold, and none since. */
  predicate HeldOnce(w: World) {
    |w.log| == 1 && |w.verdicts| == 2 && w.verdicts[1].noticed == 1
  }

  lemma WorkingShown(c: Config)
    ensures var events := [Start(0), ScreenState(1, Working)];
            var w := Run(c, events);
            Possible(c, events) && w.s == SHOWN && w.now == 1 && |w.log| == 1 && |w.verdicts| == 1
  {
    var a, b := Start(0), ScreenState(1, Working);
    assert [] + [a] == [a] && [a] + [b] == [a, b];
    RunSnoc(c, [], a);
    RunSnoc(c, [a], b);
    ShownStep(c);
    WorkingObserved(c, Run(c, [a]));
  }

  lemma WorkingObserved(c: Config, w: World)
    requires w.s == INITIAL.(ticking := true) && w.log == [] && w.verdicts == []
    ensures var u := Observe(c, w, ScreenState(1, Working)); |u.log| == 1 && |u.verdicts| == 1
  {
  }

  lemma HoldOpens(c: Config, w: World)
    requires w.s == SHOWN && |w.log| == 1 && |w.verdicts| == 1
    ensures var u := Observe(c, w, ScreenState(2, Idle)); u.s == HELD && HeldOnce(u)
  {
  }

  lemma HeldUnread(c: Config, w: World)
    requires c.idleAfterMs > 102 && w.s == HELD && HeldOnce(w)
    ensures var u := Observe(c, w, ScreenState(3, Unknown)); u.s == HELD.(screenState := Unknown) && HeldOnce(u)
  {
  }

  lemma HeldRechecked(c: Config, w: World)
    requires c.idleAfterMs > 102 && w.s == HELD.(screenState := Unknown) && HeldOnce(w)
    ensures var u := Observe(c, w, Recheck(102));
            u.s == HELD.(screenState := Unknown, idleHoldTimer := None) && HeldOnce(u)
  {
  }

  lemma InterruptedRun(c: Config)
    requires c.idleAfterMs > 102
    ensures var w := Run(c, INTERRUPTED);
            && Possible(c, INTERRUPTED) && Outliving(w) && w.now == 102 && |w.log| == 1
            && w.s.state == Active && !w.s.freshBytes && w.s.lastAboveThresholdTs == 0
  {
    var a := [Start(0), ScreenState(1, Working)];
    var b := a + [ScreenState(2, Idle)];
    var d := b + [ScreenState(3, Unknown)];
    WorkingShown(c);
    RunSnoc(c, a, ScreenState(2, Idle));
    HoldOpens(c, Run(c, a));
    RunSnoc(c, b, ScreenState(3, Unknown));
    HeldUnread(c, Run(c, b));
    RunSnoc(c, d, Recheck(102));
    HeldRechecked(c, Run(c, d));
  }

  /** The activity ends by silence, and output makes a new one. */
  function Outlived(c: Config, n: nat): seq<Event> {
    var t := c.idleAfterMs + 102;
    INTERRUPTED + [Tick(t)] + [Record(t + 1000, n)] + [Tick(t + 1000)] + [Record(t + 2000, n)] + [Tick(t + 2000)]
  }

  lemma OutlivedRun(c: Config, n: nat)
    requires c.idleAfterMs > 102 && n >= c.activeThresholdBytes
    ensures var w := Run(c, Outlived(c, n));
            && Possible(c, Outlived(c, n)) && Outliving(w) && w.s.state == Active && w.now == c.idleAfterMs + 2102
            && |w.log| > 1 && w.log[1].state == Inactive
  {
    var t := c.idleAfterMs + 102;
    var silent := INTERRUPTED + [Tick(t)];
    var once := silent + [Record(t + 1000, n)] + [Tick(t + 1000)];
    InterruptedRun(c);
    RunSnoc(c, INTERRUPTED, Tick(t));
    OutlivingTick(c, Run(c, INTERRUPTED), t);
    OutlivingIdles(c, Run(c, INTERRUPTED), t);
    OutputThenTick(c, silent, t + 1000, n);
    OutputThenTick(c, once, t + 2000, n);
  }

  lemma OutlivingPublishes(c: Config, w: World, now: int)
    requires Outliving(w) && w.s.state == Active && now >= 702
    ensures ScreenIdles(Next(c, w.s, ScreenState(now, Idle)))
  {
  }

  /** There the first idle reading of the new activity publishes idle at once: the hold counts one reading of the
      activity before. */
  lemma SingleReadingPublishes(c: Config, n: nat)
    requires c.idleAfterMs > 102 && n >= c.activeThresholdBytes
    ensures var w := Run(c, Outlived(c, n));
            var e := ScreenState(c.idleAfterMs + 2200, Idle);
            && Possible(c, Outlived(c, n) + [e]) && w.s.state == Active && !OneStretch(w)
            && ScreenIdles(Next(c, w.s, e))
  {
    var w := Run(c, Outlived(c, n));
    var e := ScreenState(c.idleAfterMs + 2200, Idle);
    OutlivedRun(c, n);
    RunSnoc(c, Outlived(c, n), e);
    OutlivingPublishes(c, w, e.ts);
    HoldAlwaysTracked(c, Outlived(c, n));
    assert NoticedAtOpening(w) == 1;
  }
}
