/** What the tracker notifies at every event, told by the events and the notifications before: which rung decides,
    what it reads, whether it notifies, and with what. */
module ActivityNotices {
  import opened Options
  import opened Runs
  import opened AgentTitles
  import opened ActivityTracker
  import opened ActivityRuns
  import opened ActivityHolds
  import opened ActivityEcho

  // ---- The readings, told by the events ----

  /** The last screen reading. */
  function ScreenRead(events: seq<Event>): PaneState {
    if events == [] then Unknown
    else if Last(events).ScreenState? then Last(events).screen
    else ScreenRead(Init(events))
  }

  /** The last title reading that was not unknown. */
  function TitleRead(events: seq<Event>): PaneState {
    if events == [] then Unknown
    else if Last(events).TitleState? && Last(events).title != Unknown then Last(events).title
    else TitleRead(Init(events))
  }

  /** Some title has read working or blocked. */
  predicate TitleTrusted(events: seq<Event>) {
    events != []
    && ((Last(events).TitleState? && (Last(events).title == Working || Last(events).title == Blocked))
        || TitleTrusted(Init(events)))
  }

  /** The rung that decides: a screen that is read, else a title once one has been trusted, else bytes. */
  function RungAt(events: seq<Event>): DecidedBy {
    if ScreenRead(events) != Unknown then Screen else if TitleTrusted(events) then Title else Bytes
  }

  /** What the rung reads, when it is not bytes. */
  function ReadingAt(events: seq<Event>): PaneState {
    if RungAt(events) == Screen then ScreenRead(events) else TitleRead(events)
  }

  predicate ReadingsKept(s: State, events: seq<Event>) {
    && s.screenState == ScreenRead(events) && s.titleState == TitleRead(events)
    && s.titleAuthoritative == TitleTrusted(events)
  }

  lemma LadderReadings(c: Config, s: State, now: int, sum: nat)
    requires s.titleAuthoritative || !Engaged(s.titleState)
    ensures var t := RunLadder(c, s, now, sum).state;
            && t.screenState == s.screenState && t.titleState == s.titleState
            && t.titleAuthoritative == s.titleAuthoritative
  {
    match Decide(s)
    case ByScreen(p) => ApplyStreak(s, now, sum, p, Screen);
    case ByTitle(p) => ApplyStreak(if Engaged(p) then s.(titleAuthoritative := true) else s, now, sum, p, Title);
    case ByBytes =>
  }

  lemma {:induction false} TitleReadTrusted(events: seq<Event>)
    ensures TitleRead(events) == Working || TitleRead(events) == Blocked ==> TitleTrusted(events)
  {
    if events != [] {
      TitleReadTrusted(Init(events));
    }
  }

  lemma ReadingsStep(c: Config, s: State, events: seq<Event>, e: Event)
    requires ReadingsKept(s, events)
    ensures ReadingsKept(Next(c, s, e).state, events + [e])
  {
    assert Init(events + [e]) == events;
    TitleReadTrusted(events);
    if Evaluates(e) {
      var t := Prepared(c, s, e);
      LadderReadings(c, t, e.ts, WindowSum(c, t.samples, e.ts));
    }
  }

  /** In every run the tracker reads what was read last. */
  lemma {:induction false} ReadingsAlwaysKept(c: Config, events: seq<Event>)
    ensures ReadingsKept(Run(c, events).s, events)
  {
    if events != [] {
      ReadingsAlwaysKept(c, Init(events));
      ReadingsStep(c, Run(c, Init(events)).s, Init(events), Last(events));
      assert events == Init(events) + [Last(events)];
    }
  }

  // ---- Notifications of the screen and the title ----

  /** The state last notified. */
  function Current(log: seq<Transition>): Activity {
    if log == [] then Inactive else Last(log).state
  }

  predicate Rests(p: PaneState) {
    p == Idle || p == Error
  }

  /** An idle reading of an active agent's screen that has not been confirmed. */
  predicate Holds(log: seq<Transition>, verdicts: seq<Verdict>, rung: DecidedBy, p: PaneState, now: int) {
    rung == Screen && Rests(p) && Current(log) == Active && !Confirmed(verdicts, now)
  }

  /** What is new in a reading, or due to be repeated. */
  predicate SaysNew(log: seq<Transition>, rung: DecidedBy, p: PaneState, now: int) {
    || Rests(p) != (Current(log) == Inactive)
    || (!Rests(p) && !SaysReading(NotedStatus(log), p))
    || NotedBy(log) != Some(rung)
    || (Current(log) == Active && now - Last(log).at >= 15000)
  }

  /** A reading is notified when it is not held back and says something new of state, status or rung, or repeats
      `active` after fifteen seconds. */
  predicate Notifies(log: seq<Transition>, verdicts: seq<Verdict>, rung: DecidedBy, p: PaneState, now: int) {
    && !Holds(log, verdicts, rung, p, now)
    && SaysNew(log, rung, p, now)
  }

  /** What a notification of a reading says. */
  predicate TellsReading(t: Transition, rung: DecidedBy, p: PaneState, now: int, sum: nat) {
    && t.at == now && t.bytesInWindow == sum && t.decidedBy == rung
    && (t.state == Inactive <==> Rests(p)) && SaysReading(t.status, p)
  }

  predicate Remembers(s: State, log: seq<Transition>, verdicts: seq<Verdict>) {
    LogCurrent(s, log) && Noted(s, log) && HoldTracked(s, verdicts)
  }

  lemma StatusSays(status: Option<Status>, p: PaneState)
    ensures SaysReading(status, p) <==> status == StatusOf(p)
  {
    match status
    case None =>
    case Some(StatusWorking) =>
    case Some(StatusBlocked) =>
  }

  lemma PublishNotifies(s: State, log: seq<Transition>, now: int, sum: nat, p: PaneState, rung: DecidedBy)
    requires LogCurrent(s, log) && Noted(s, log) && rung != Bytes
    ensures var o := Publish(s, now, sum, if Rests(p) then Inactive else Active, StatusOf(p), rung).emitted;
            && (o.Some? <==> SaysNew(log, rung, p, now))
            && (o.Some? ==> TellsReading(o.value, rung, p, now, sum))
  {
    StatusSays(s.emittedStatus, p);
    StatusSays(None, p);
    StatusSays(StatusOf(p), p);
  }

  lemma ApplyNotifies(s: State, log: seq<Transition>, verdicts: seq<Verdict>, now: int, sum: nat, p: PaneState,
                      rung: DecidedBy)
    requires Remembers(s, log, verdicts) && rung != Bytes
    ensures var o := Apply(s, now, sum, p, rung).emitted;
            && (o.Some? <==> Notifies(log, verdicts, rung, p, now))
            && (o.Some? ==> TellsReading(o.value, rung, p, now, sum))
  {
    HeldConfirms(s, verdicts, now);
    if rung == Screen && Rests(p) && s.state == Active {
      PublishNotifies(HoldIdle(s, now), log, now, sum, p, rung);
    } else {
      PublishNotifies(ResetIdleHold(s), log, now, sum, p, rung);
    }
  }

  // ---- Notifications of the byte rung ----

  /** How many of the last checks in a row were above the threshold with fresh output. */
  function AboveRun(c: Config, checks: seq<ByteCheck>): nat {
    if checks == [] || !Above(c, Last(checks)) then 0 else AboveRun(c, Init(checks)) + 1
  }

  predicate StreakTold(c: Config, w: World) {
    w.s.aboveStreak == AboveRun(c, w.checks)
  }

  lemma AboveSnoc(c: Config, checks: seq<ByteCheck>, x: ByteCheck)
    ensures AboveRun(c, checks + [x]) == if Above(c, x) then AboveRun(c, checks) + 1 else 0
  {
    assert Init(checks + [x]) == checks;
  }

  /** The check an evaluation of the byte rung adds. */
  function CheckOf(c: Config, w: World, e: Event): ByteCheck {
    ByteCheck(e.ts, WindowSum(c, Prepared(c, w.s, e).samples, e.ts), NewSince(w), |w.accepted|)
  }

  lemma ObservedChecks(c: Config, w: World, e: Event)
    ensures Observe(c, w, e).checks
         == if Evaluates(e) && Decide(Prepared(c, w.s, e)).ByBytes? then w.checks + [CheckOf(c, w, e)] else w.checks
  {
  }

  lemma CheckAbove(c: Config, w: World, e: Event)
    requires EchoInvariant(c, w) && Evaluates(e)
    ensures var t := Prepared(c, w.s, e);
            Above(c, CheckOf(c, w, e)) <==> IsAbove(c, t, WindowSum(c, t.samples, e.ts))
  {
    PreparedStreak(c, w.s, e);
  }

  lemma StreakStep(c: Config, w: World, e: Event)
    requires EchoInvariant(c, w) && StreakTold(c, w)
    ensures StreakTold(c, Observe(c, w, e))
  {
    ObservedChecks(c, w, e);
    if Evaluates(e) {
      var t := Prepared(c, w.s, e);
      PreparedStreak(c, w.s, e);
      LadderStreak(c, t, e.ts, WindowSum(c, t.samples, e.ts));
      CheckAbove(c, w, e);
      AboveSnoc(c, w.checks, CheckOf(c, w, e));
    }
  }

  /** In every run the streak counts the checks in a row that found enough fresh output. */
  lemma {:induction false} StreakAlwaysTold(c: Config, events: seq<Event>)
    requires Possible(c, events)
    ensures StreakTold(c, Run(c, events))
  {
    if events != [] {
      StreakAlwaysTold(c, Init(events));
      EchoAlways(c, Init(events));
      StreakStep(c, Run(c, Init(events)), Last(events));
    }
  }

  /** Activity ends by silence: this check finds too little, and the last that found enough is long enough ago. */
  predicate FallsSilent(c: Config, before: seq<ByteCheck>, check: ByteCheck) {
    !Above(c, check) && check.at - LastAbove(c, before) >= c.idleAfterMs
  }

  /** Bytes promote on the second check in a row that finds enough; they end activity by silence, and repeat `active`
      after fifteen seconds. */
  predicate BytesNotifies(c: Config, log: seq<Transition>, before: seq<ByteCheck>, check: ByteCheck) {
    if Current(log) == Inactive then AboveRun(c, before + [check]) >= 2
    else FallsSilent(c, before, check) || check.at - Last(log).at >= 15000
  }

  predicate TellsBytes(c: Config, t: Transition, log: seq<Transition>, before: seq<ByteCheck>, check: ByteCheck) {
    && t.at == check.at && t.bytesInWindow == check.sum && t.decidedBy == Bytes && t.status == None
    && (t.state == Inactive <==> Current(log) == Active && FallsSilent(c, before, check))
  }

  lemma BytesRungNotifies(c: Config, s: State, log: seq<Transition>, before: seq<ByteCheck>, check: ByteCheck)
    requires LogCurrent(s, log)
    requires s.aboveStreak == AboveRun(c, before) && s.lastAboveThresholdTs == LastAbove(c, before)
    requires Above(c, check) <==> IsAbove(c, s, check.sum)
    ensures var o := BytesRung(c, s, check.at, check.sum).emitted;
            && (o.Some? <==> BytesNotifies(c, log, before, check))
            && (o.Some? ==> TellsBytes(c, o.value, log, before, check))
  {
    AboveSnoc(c, before, check);
  }

  // ---- Every notification ----

  /** What is notified at an event. */
  predicate NoticeTold(c: Config, w: World, all: seq<Event>, e: Event, o: Option<Transition>) {
    var sum := WindowSum(c, w.accepted, e.ts);
    if !EvaluatesAt(e) then o.None?
    else if RungAt(all) == Bytes then
      var check := ByteCheck(e.ts, sum, NewSince(w), |w.accepted|);
      && (o.Some? <==> BytesNotifies(c, w.log, w.checks, check))
      && (o.Some? ==> TellsBytes(c, o.value, w.log, w.checks, check))
    else
      && (o.Some? <==> Notifies(w.log, w.verdicts, RungAt(all), ReadingAt(all), e.ts))
      && (o.Some? ==> TellsReading(o.value, RungAt(all), ReadingAt(all), e.ts, sum))
  }

  lemma PreparedRemembers(c: Config, w: World, e: Event)
    requires Remembers(w.s, w.log, w.verdicts) && Evaluates(e)
    ensures var t := Prepared(c, w.s, e);
            Remembers(t, w.log, w.verdicts) && t.aboveStreak == w.s.aboveStreak
            && t.lastAboveThresholdTs == w.s.lastAboveThresholdTs
  {
  }

  /** The rung that decides, told by the events. */
  lemma DecidesTold(c: Config, s: State, events: seq<Event>, e: Event)
    requires ReadingsKept(s, events) && Evaluates(e)
    ensures var t, all := Prepared(c, s, e), events + [e];
            match RungAt(all)
            case Screen => Decide(t) == ByScreen(ReadingAt(all))
            case Title => Decide(t) == ByTitle(ReadingAt(all))
            case Bytes => Decide(t) == ByBytes && !Engaged(t.titleState)
  {
    assert Init(events + [e]) == events;
    TitleReadTrusted(events);
  }

  lemma ClassifiedNotice(c: Config, w: World, events: seq<Event>, e: Event)
    requires ReadingsKept(w.s, events) && Evaluates(e) && RungAt(events + [e]) != Bytes
    requires Remembers(w.s, w.log, w.verdicts)
    requires WindowSum(c, Prepared(c, w.s, e).samples, e.ts) == WindowSum(c, w.accepted, e.ts)
    ensures NoticeTold(c, w, events + [e], e, Next(c, w.s, e).emitted)
  {
    var t := Prepared(c, w.s, e);
    var p, sum := ReadingAt(events + [e]), WindowSum(c, t.samples, e.ts);
    DecidesTold(c, w.s, events, e);
    PreparedRemembers(c, w, e);
    if RungAt(events + [e]) == Screen {
      ApplyNotifies(t, w.log, w.verdicts, e.ts, sum, p, Screen);
    } else {
      ApplyNotifies(if Engaged(p) then t.(titleAuthoritative := true) else t, w.log, w.verdicts, e.ts, sum, p, Title);
    }
  }

  lemma BytesNotice(c: Config, w: World, events: seq<Event>, e: Event)
    requires ReadingsKept(w.s, events) && Evaluates(e) && RungAt(events + [e]) == Bytes
    requires Remembers(w.s, w.log, w.verdicts) && EchoInvariant(c, w) && StreakTold(c, w)
    requires w.s.lastAboveThresholdTs == LastAbove(c, w.checks)
    requires WindowSum(c, Prepared(c, w.s, e).samples, e.ts) == WindowSum(c, w.accepted, e.ts)
    ensures NoticeTold(c, w, events + [e], e, Next(c, w.s, e).emitted)
  {
    DecidesTold(c, w.s, events, e);
    PreparedRemembers(c, w, e);
    CheckAbove(c, w, e);
    BytesRungNotifies(c, Prepared(c, w.s, e), w.log, w.checks, CheckOf(c, w, e));
  }

  /** In every run, every event notifies what the events and the notifications before it tell, and nothing else. */
  lemma NoticeExact(c: Config, events: seq<Event>, e: Event)
    requires Possible(c, events) && Enabled(Run(c, events), e)
    ensures NoticeTold(c, Run(c, events), events + [e], e, Next(c, Run(c, events).s, e).emitted)
  {
    var w := Run(c, events);
    EmissionDiscipline(c, events);
    NotedAlways(c, events);
    HoldAlwaysTracked(c, events);
    ReadingsAlwaysKept(c, events);
    SumsAgreeWithHistory(c, events, e);
    if !Evaluates(e) {
      SilentOtherwise(c, w.s, e);
    } else if RungAt(events + [e]) == Bytes {
      EchoAlways(c, events);
      StreakAlwaysTold(c, events);
      LastAboveTracked(c, events);
      BytesNotice(c, w, events, e);
    } else {
      ClassifiedNotice(c, w, events, e);
    }
  }

  predicate EvaluatesAt(e: Event) {
    e.ScreenState? || e.Tick? || e.Recheck?
  }

  /** The verdict an event adds, if the screen or the title decides. */
  function NewVerdicts(w: World, all: seq<Event>, e: Event, notified: bool): seq<Verdict> {
    if !EvaluatesAt(e) || RungAt(all) == Bytes then []
    else [Verdict(e.ts, ReadingAt(all), RungAt(all), Current(w.log) == Active, notified, |w.log|)]
  }

  /** The check an event adds, if bytes decide. */
  function NewChecks(c: Config, w: World, all: seq<Event>, e: Event): seq<ByteCheck> {
    if !EvaluatesAt(e) || RungAt(all) != Bytes then []
    else [ByteCheck(e.ts, WindowSum(c, w.accepted, e.ts), NewSince(w), |w.accepted|)]
  }

  lemma VerdictsStep(c: Config, w: World, events: seq<Event>, e: Event)
    requires ReadingsKept(w.s, events) && LogCurrent(w.s, w.log)
    ensures var o := Next(c, w.s, e).emitted;
            Observe(c, w, e).verdicts == w.verdicts + NewVerdicts(w, events + [e], e, o.Some?)
  {
    if Evaluates(e) {
      DecidesTold(c, w.s, events, e);
      PreparedHold(c, w.s, e);
    }
  }

  lemma ChecksStep(c: Config, w: World, events: seq<Event>, e: Event)
    requires ReadingsKept(w.s, events)
    requires WindowSum(c, Prepared(c, w.s, e).samples, e.ts) == WindowSum(c, w.accepted, e.ts)
    ensures Observe(c, w, e).checks == w.checks + NewChecks(c, w, events + [e], e)
  {
    ObservedChecks(c, w, e);
    if Evaluates(e) {
      DecidesTold(c, w.s, events, e);
    }
  }

  /** What an event adds to the verdicts and to the checks. */
  lemma HistoryTold(c: Config, events: seq<Event>, e: Event)
    requires Possible(c, events) && Enabled(Run(c, events), e)
    ensures var w, u, o := Run(c, events), Run(c, events + [e]), Next(c, Run(c, events).s, e).emitted;
            && u.verdicts == w.verdicts + NewVerdicts(w, events + [e], e, o.Some?)
            && u.checks == w.checks + NewChecks(c, w, events + [e], e)
            && u.log == w.log + (if o.Some? then [o.value] else [])
  {
    RunSnoc(c, events, e);
    ReadingsAlwaysKept(c, events);
    EmissionDiscipline(c, events);
    SumsAgreeWithHistory(c, events, e);
    VerdictsStep(c, Run(c, events), events, e);
    ChecksStep(c, Run(c, events), events, e);
  }

  /** When the recheck of a hold is due: a tenth of a second after the last reading held back. A reading that is not
      held back, the recheck itself and stopping the tracker disarm it. */
  function RecheckDue(c: Config, events: seq<Event>): Option<int> {
    if events == [] then None else
      var w, e := Run(c, Init(events)), Last(events);
      if e.Stop? then None
      else if !EvaluatesAt(e) then RecheckDue(c, Init(events))
      else if RungAt(events) == Bytes then (if e.Recheck? then None else RecheckDue(c, Init(events)))
      else if Holds(w.log, w.verdicts, RungAt(events), ReadingAt(events), e.ts) then Some(e.ts + 100)
      else None
  }

  lemma ApplyRecheck(s: State, log: seq<Transition>, verdicts: seq<Verdict>, now: int, sum: nat, p: PaneState,
                     rung: DecidedBy)
    requires Remembers(s, log, verdicts) && rung != Bytes
    ensures Apply(s, now, sum, p, rung).state.idleHoldTimer
         == if Holds(log, verdicts, rung, p, now) then Some(now + 100) else None
  {
    HeldConfirms(s, verdicts, now);
    PublishFields(HoldIdle(s, now), now, sum, if Resting(p) then Inactive else Active, StatusOf(p), rung);
    PublishFields(ResetIdleHold(s), now, sum, if Resting(p) then Inactive else Active, StatusOf(p), rung);
  }

  lemma RecheckStep(c: Config, w: World, events: seq<Event>, e: Event)
    requires ReadingsKept(w.s, events) && Remembers(w.s, w.log, w.verdicts) && Evaluates(e)
    ensures Next(c, w.s, e).state.idleHoldTimer
         == if RungAt(events + [e]) == Bytes then (if e.Recheck? then None else w.s.idleHoldTimer)
            else if Holds(w.log, w.verdicts, RungAt(events + [e]), ReadingAt(events + [e]), e.ts) then Some(e.ts + 100)
            else None
  {
    var t := Prepared(c, w.s, e);
    var p, sum := ReadingAt(events + [e]), WindowSum(c, t.samples, e.ts);
    DecidesTold(c, w.s, events, e);
    PreparedRemembers(c, w, e);
    match RungAt(events + [e])
    case Screen => ApplyRecheck(t, w.log, w.verdicts, e.ts, sum, p, Screen);
    case Title =>
      ApplyRecheck(if Engaged(p) then t.(titleAuthoritative := true) else t, w.log, w.verdicts, e.ts, sum, p, Title);
    case Bytes => BytesHold(c, t, e.ts, sum);
  }

  /** In every run the recheck is armed for exactly then. */
  lemma {:induction false} RecheckExact(c: Config, events: seq<Event>)
    requires Possible(c, events)
    ensures Run(c, events).s.idleHoldTimer == RecheckDue(c, events)
  {
    if events != [] {
      var before, e := Init(events), Last(events);
      RecheckExact(c, before);
      assert events == before + [e];
      if Evaluates(e) {
        EmissionDiscipline(c, before);
        NotedAlways(c, before);
        HoldAlwaysTracked(c, before);
        ReadingsAlwaysKept(c, before);
        RecheckStep(c, Run(c, before), before, e);
      }
    }
  }

  /** A change between working and blocked while active is notified at that evaluation, with the new status. */
  lemma FlipIsNotified(c: Config, events: seq<Event>, e: Event)
    requires Possible(c, events) && Enabled(Run(c, events), e) && (e.ScreenState? || e.Tick? || e.Recheck?)
    requires RungAt(events + [e]) != Bytes && ReadingAt(events + [e]) in {Working, Blocked}
    requires NotedStatus(Run(c, events).log)
          == Some(if ReadingAt(events + [e]) == Working then StatusBlocked else StatusWorking)
    ensures var o := Next(c, Run(c, events).s, e).emitted;
            o.Some? && o.value.state == Active && o.value.decidedBy == RungAt(events + [e])
            && o.value.status == Some(if ReadingAt(events + [e]) == Working then StatusWorking else StatusBlocked)
  {
    NoticeExact(c, events, e);
  }
}
