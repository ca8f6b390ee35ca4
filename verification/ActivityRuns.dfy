/** What holds in every run of the activity tracker. A run is observed by a history: every notification, every accepted
    output, every verdict applied, and every evaluation of the byte rung. */
module ActivityRuns {
  import opened Options
  import opened Runs
  import opened AgentTitles
  import opened ActivityTracker

  /** A verdict handed to the shared screen/title rule: whether it found the tracker active, whether it was announced,
      and how many notifications there were before. */
  datatype Verdict =
    Verdict(at: int, pane: PaneState, rung: DecidedBy, active: bool, announced: bool, noticed: nat)

  /** One evaluation of the byte rung: the window sum, how many outputs were accepted since the previous one, and how
      many in all. */
  datatype ByteCheck = ByteCheck(at: int, sum: nat, arrived: nat, accepted: nat)

  datatype World = World(
    s: State, now: int, log: seq<Transition>, accepted: seq<Sample>,
    verdicts: seq<Verdict>, checks: seq<ByteCheck>, acceptedAtCheck: nat, stopped: bool)

  const START := World(INITIAL, 0, [], [], [], [], 0, false)

  function Observe(c: Config, w: World, e: Event): World {
    var outcome := Next(c, w.s, e);
    var t := Prepared(c, w.s, e);
    var decision := Decide(t);
    var climbed := Evaluates(e);
    World(
      outcome.state, e.ts,
      if outcome.emitted.Some? then w.log + [outcome.emitted.value] else w.log,
      if e.Record? && !InGrace(w.s, e.ts) then w.accepted + [Sample(e.ts, e.bytes)] else w.accepted,
      if climbed && !decision.ByBytes?
      then w.verdicts + [VerdictOf(decision, e.ts, t.state == Active, outcome.emitted.Some?, |w.log|)] else w.verdicts,
      if climbed && decision.ByBytes?
      then w.checks + [ByteCheck(e.ts, WindowSum(c, t.samples, e.ts), NewSince(w), |w.accepted|)] else w.checks,
      if climbed && decision.ByBytes? then |w.accepted| else w.acceptedAtCheck,
      w.stopped || e.Stop?)
  }

  function VerdictOf(decision: Decision, now: int, active: bool, announced: bool, noticed: nat): Verdict
    requires !decision.ByBytes?
  {
    Verdict(now, decision.pane, if decision.ByScreen? then Screen else Title, active, announced, noticed)
  }

  function NewSince(w: World): nat {
    if |w.accepted| >= w.acceptedAtCheck then |w.accepted| - w.acceptedAtCheck else 0
  }

  /** The clock never goes back; the interval fires only while started, the recheck only when armed and due. */
  predicate Enabled(w: World, e: Event) {
    && w.now <= e.ts
    && (e.Tick? ==> w.s.ticking)
    && (e.Recheck? ==> w.s.idleHoldTimer.Some? && w.s.idleHoldTimer.value <= e.ts)
  }

  function Run(c: Config, events: seq<Event>): World {
    if events == [] then START else Observe(c, Run(c, Init(events)), Last(events))
  }

  predicate Possible(c: Config, events: seq<Event>) {
    events == [] || (Possible(c, Init(events)) && Enabled(Run(c, Init(events)), Last(events)))
  }

  // ---- The window cache ----

  /** The pruned samples and the full history agree from every cutoff a later evaluation can use. */
  ghost predicate WindowAgrees(c: Config, w: World) {
    forall cutoff | w.now - c.windowMs <= cutoff :: Since(w.s.samples, cutoff) == Since(w.accepted, cutoff)
  }

  lemma ApplySamples(s: State, now: int, sum: nat, p: PaneState, rung: DecidedBy)
    ensures Apply(s, now, sum, p, rung).state.samples == s.samples
  {
  }

  lemma LadderSamples(c: Config, s: State, now: int, sum: nat)
    ensures RunLadder(c, s, now, sum).state.samples == s.samples
  {
    match Decide(s)
    case ByScreen(p) => ApplySamples(s, now, sum, p, Screen);
    case ByTitle(p) => ApplySamples(if Engaged(p) then s.(titleAuthoritative := true) else s, now, sum, p, Title);
    case ByBytes =>
  }

  lemma NextSamples(c: Config, s: State, e: Event)
    ensures Next(c, s, e).state.samples
         == if e.Record? && !InGrace(s, e.ts) then s.samples + [Sample(e.ts, e.bytes)] else Prepared(c, s, e).samples
  {
    if Evaluates(e) {
      var t := Prepared(c, s, e);
      LadderSamples(c, t, e.ts, WindowSum(c, t.samples, e.ts));
    }
  }

  lemma SinceSnoc(samples: seq<Sample>, x: Sample, cutoff: int)
    ensures Since(samples + [x], cutoff)
         == if x.ts >= cutoff then Since(samples, cutoff) + [x] else Since(samples, cutoff)
  {
    assert (samples + [x])[..|samples|] == samples;
  }

  lemma WindowStep(c: Config, w: World, e: Event)
    requires WindowAgrees(c, w) && w.now <= e.ts
    ensures WindowAgrees(c, Observe(c, w, e))
  {
    var u := Observe(c, w, e);
    NextSamples(c, w.s, e);
    forall cutoff | u.now - c.windowMs <= cutoff ensures Since(u.s.samples, cutoff) == Since(u.accepted, cutoff) {
      if e.Record? {
        SinceSnoc(w.s.samples, Sample(e.ts, e.bytes), cutoff);
        SinceSnoc(w.accepted, Sample(e.ts, e.bytes), cutoff);
      } else if e.Tick? {
        SinceTwice(w.s.samples, e.ts - c.windowMs, cutoff);
      }
    }
  }

  lemma {:induction false} WindowAlwaysAgrees(c: Config, events: seq<Event>)
    requires Possible(c, events)
    ensures WindowAgrees(c, Run(c, events))
  {
    if events != [] {
      WindowAlwaysAgrees(c, Init(events));
      WindowStep(c, Run(c, Init(events)), Last(events));
    }
  }

  lemma PreparedWindow(c: Config, w: World, e: Event)
    requires WindowAgrees(c, w) && w.now <= e.ts
    ensures Since(Prepared(c, w.s, e).samples, e.ts - c.windowMs) == Since(w.accepted, e.ts - c.windowMs)
  {
    SinceTwice(w.s.samples, e.ts - c.windowMs, e.ts - c.windowMs);
    assert Since(w.s.samples, e.ts - c.windowMs) == Since(w.accepted, e.ts - c.windowMs);
  }

  lemma SumsAgree(c: Config, w: World, e: Event)
    requires WindowAgrees(c, w) && w.now <= e.ts
    ensures WindowSum(c, Prepared(c, w.s, e).samples, e.ts) == WindowSum(c, w.accepted, e.ts)
    ensures SnapshotOf(c, w.s, e.ts).bytesInWindow == WindowSum(c, w.accepted, e.ts)
  {
    PreparedWindow(c, w, e);
    PreparedWindow(c, w, Input(e.ts));
  }

  lemma {:induction false} SinceAppend(a: seq<Sample>, b: seq<Sample>, cutoff: int)
    ensures Since(a + b, cutoff) == Since(a, cutoff) + Since(b, cutoff)
  {
    if b == [] {
      assert a + b == a;
    } else {
      assert (a + b)[..|a + b| - 1] == a + b[..|b| - 1];
      SinceAppend(a, b[..|b| - 1], cutoff);
    }
  }

  lemma {:induction false} TotalAppend(a: seq<Sample>, b: seq<Sample>)
    ensures Total(a + b) == Total(a) + Total(b)
  {
    if b == [] {
      assert a + b == a;
    } else {
      assert (a + b)[..|a + b| - 1] == a + b[..|b| - 1];
      TotalAppend(a, b[..|b| - 1]);
    }
  }

  /** The sum of a window is added up sample by sample: each counts while it is no older than the window. */
  lemma WindowSumTold(c: Config, a: seq<Sample>, b: seq<Sample>, x: Sample, now: int)
    ensures WindowSum(c, a + b, now) == WindowSum(c, a, now) + WindowSum(c, b, now)
    ensures WindowSum(c, [x], now) == (if now - x.ts <= c.windowMs then x.bytes else 0) && WindowSum(c, [], now) == 0
  {
    SinceAppend(a, b, now - c.windowMs);
    TotalAppend(Since(a, now - c.windowMs), Since(b, now - c.windowMs));
    SampleAlone(x, now - c.windowMs);
  }

  lemma SampleAlone(x: Sample, cutoff: int)
    ensures Total(Since([x], cutoff)) == if x.ts >= cutoff then x.bytes else 0
  {
    assert [x][..0] == [];
  }

  /** The sum of every tick, evaluation and snapshot is the sum over the full history of accepted output. */
  lemma SumsAgreeWithHistory(c: Config, events: seq<Event>, e: Event)
    requires Possible(c, events) && Enabled(Run(c, events), e)
    ensures var w := Run(c, events);
            && WindowSum(c, Prepared(c, w.s, e).samples, e.ts) == WindowSum(c, w.accepted, e.ts)
            && SnapshotOf(c, w.s, e.ts).bytesInWindow == WindowSum(c, w.accepted, e.ts)
  {
    WindowAlwaysAgrees(c, events);
    SumsAgree(c, Run(c, events), e);
  }

  // ---- Emission discipline ----

  predicate SameNotice(a: Transition, b: Transition) {
    a.state == b.state && a.status == b.status && a.decidedBy == b.decidedBy
  }

  /** Two notifications in a row say something new, or repeat `active` after the keepalive interval. */
  predicate Spaced(a: Transition, b: Transition) {
    SameNotice(a, b) ==> a.state == Active && b.at - a.at >= 15000
  }

  predicate LogSpaced(log: seq<Transition>) {
    forall i | 0 <= i < |log| - 1 :: Spaced(log[i], log[i + 1])
  }

  /** What the last notification says about the fields that decide the next one. */
  predicate LogCurrent(s: State, log: seq<Transition>) {
    if log == [] then s.state == Inactive && s.emittedDecidedBy == None && s.emittedStatus == None else
      var last := log[|log| - 1];
      && last.state == s.state
      && (last.decidedBy != Bytes ==> s.emittedDecidedBy == Some(last.decidedBy) && s.emittedStatus == last.status)
      && (s.state == Active ==> last.at == s.lastActiveEmitTs)
  }

  /** One emission, or none, after a log. */
  function Extend(log: seq<Transition>, emitted: Option<Transition>): seq<Transition> {
    if emitted.Some? then log + [emitted.value] else log
  }

  predicate GoodEmission(log: seq<Transition>, outcome: Outcome) {
    && LogCurrent(outcome.state, Extend(log, outcome.emitted))
    && (outcome.emitted.Some? && log != [] ==> Spaced(log[|log| - 1], outcome.emitted.value))
  }

  lemma PublishGood(s: State, log: seq<Transition>, now: int, sum: nat, desired: Activity, status: Option<Status>,
                    rung: DecidedBy)
    requires LogCurrent(s, log) && rung != Bytes
    ensures GoodEmission(log, Publish(s, now, sum, desired, status, rung))
  {
  }

  lemma ApplyGood(s: State, log: seq<Transition>, now: int, sum: nat, p: PaneState, rung: DecidedBy)
    requires LogCurrent(s, log) && rung != Bytes
    ensures GoodEmission(log, Apply(s, now, sum, p, rung))
  {
    var desired := if Resting(p) then Inactive else Active;
    if desired == Inactive && s.state == Active && rung == Screen {
      PublishGood(HoldIdle(s, now), log, now, sum, desired, StatusOf(p), rung);
    } else {
      PublishGood(ResetIdleHold(s), log, now, sum, desired, StatusOf(p), rung);
    }
  }

  lemma BytesGood(c: Config, s: State, log: seq<Transition>, now: int, sum: nat)
    requires LogCurrent(s, log)
    ensures GoodEmission(log, BytesRung(c, s, now, sum))
  {
  }

  lemma LadderGood(c: Config, s: State, log: seq<Transition>, now: int, sum: nat)
    requires LogCurrent(s, log)
    ensures GoodEmission(log, RunLadder(c, s, now, sum))
  {
    match Decide(s)
    case ByScreen(p) => ApplyGood(s, log, now, sum, p, Screen);
    case ByTitle(p) => ApplyGood(if Engaged(p) then s.(titleAuthoritative := true) else s, log, now, sum, p, Title);
    case ByBytes => BytesGood(c, s, log, now, sum);
  }

  lemma EmissionStep(c: Config, w: World, e: Event)
    requires LogCurrent(w.s, w.log)
    ensures GoodEmission(w.log, Next(c, w.s, e))
  {
    if Evaluates(e) {
      var t := Prepared(c, w.s, e);
      LadderGood(c, t, w.log, e.ts, WindowSum(c, t.samples, e.ts));
    }
  }

  /** The last notification carries the tracker's state, and no notification repeats the one before it except `active`
      after fifteen seconds. */
  lemma {:induction false} EmissionDiscipline(c: Config, events: seq<Event>)
    requires Possible(c, events)
    ensures var w := Run(c, events);
            LogSpaced(w.log) && LogCurrent(w.s, w.log)
  {
    if events != [] {
      EmissionDiscipline(c, Init(events));
      EmissionStep(c, Run(c, Init(events)), Last(events));
    }
  }

  // ---- What a snapshot says of the last notification ----

  /** The last notification is the byte rung's repetition of `active`. */
  predicate BytesRepeat(log: seq<Transition>) {
    && |log| > 1 && Last(log).decidedBy == Bytes
    && Last(log).state == Active && Last(Init(log)).state == Active
  }

  /** The status of the last notification that was not decided by bytes. */
  function NotedStatus(log: seq<Transition>): Option<Status> {
    if log == [] then None
    else if Last(log).decidedBy == Bytes then NotedStatus(Init(log))
    else Last(log).status
  }

  /** The rung of the last notification that was not the byte rung's repetition. */
  function NotedBy(log: seq<Transition>): Option<DecidedBy> {
    if log == [] then None
    else if BytesRepeat(log) then NotedBy(Init(log))
    else Some(Last(log).decidedBy)
  }

  predicate Noted(s: State, log: seq<Transition>) {
    s.emittedStatus == NotedStatus(log) && s.emittedDecidedBy == NotedBy(log)
  }

  predicate BytesSayNoStatus(log: seq<Transition>) {
    forall i | 0 <= i < |log| && log[i].decidedBy == Bytes :: log[i].status == None
  }

  lemma NotedSnoc(log: seq<Transition>, t: Transition)
    ensures NotedStatus(log + [t]) == if t.decidedBy == Bytes then NotedStatus(log) else t.status
    ensures NotedBy(log + [t])
         == if log != [] && t.decidedBy == Bytes && t.state == Active && Last(log).state == Active then NotedBy(log)
            else Some(t.decidedBy)
  {
    assert Init(log + [t]) == log;
  }

  lemma PublishNoted(s: State, log: seq<Transition>, now: int, sum: nat, desired: Activity, status: Option<Status>,
                     rung: DecidedBy)
    requires Noted(s, log) && rung != Bytes
    ensures var o := Publish(s, now, sum, desired, status, rung); Noted(o.state, Extend(log, o.emitted))
    ensures var o := Publish(s, now, sum, desired, status, rung); o.emitted.Some? ==> o.emitted.value.decidedBy == rung
  {
    var o := Publish(s, now, sum, desired, status, rung);
    if o.emitted.Some? {
      NotedSnoc(log, o.emitted.value);
    }
  }

  lemma ApplyNoted(s: State, log: seq<Transition>, now: int, sum: nat, p: PaneState, rung: DecidedBy)
    requires Noted(s, log) && rung != Bytes
    ensures var o := Apply(s, now, sum, p, rung); Noted(o.state, Extend(log, o.emitted))
    ensures var o := Apply(s, now, sum, p, rung); o.emitted.Some? ==> o.emitted.value.decidedBy == rung
  {
    var desired := if Resting(p) then Inactive else Active;
    PublishNoted(HoldIdle(s, now), log, now, sum, desired, StatusOf(p), rung);
    PublishNoted(ResetIdleHold(s), log, now, sum, desired, StatusOf(p), rung);
  }

  lemma BytesNoted(c: Config, s: State, log: seq<Transition>, now: int, sum: nat)
    requires Noted(s, log) && LogCurrent(s, log)
    ensures var o := BytesRung(c, s, now, sum); Noted(o.state, Extend(log, o.emitted))
    ensures var o := BytesRung(c, s, now, sum); o.emitted.Some? ==> o.emitted.value.status == None
  {
    var o := BytesRung(c, s, now, sum);
    if o.emitted.Some? {
      NotedSnoc(log, o.emitted.value);
    }
  }

  lemma LadderNoted(c: Config, s: State, log: seq<Transition>, now: int, sum: nat)
    requires Noted(s, log) && LogCurrent(s, log)
    ensures var o := RunLadder(c, s, now, sum);
            && Noted(o.state, Extend(log, o.emitted))
            && (o.emitted.Some? && o.emitted.value.decidedBy == Bytes ==> o.emitted.value.status == None)
  {
    match Decide(s)
    case ByScreen(p) => ApplyNoted(s, log, now, sum, p, Screen);
    case ByTitle(p) => ApplyNoted(if Engaged(p) then s.(titleAuthoritative := true) else s, log, now, sum, p, Title);
    case ByBytes => BytesNoted(c, s, log, now, sum);
  }

  /** In every run the two remembered fields are told by the notifications alone. */
  lemma {:induction false} NotedAlways(c: Config, events: seq<Event>)
    requires Possible(c, events)
    ensures var w := Run(c, events); Noted(w.s, w.log) && BytesSayNoStatus(w.log)
  {
    if events != [] {
      NotedAlways(c, Init(events));
      EmissionDiscipline(c, Init(events));
      NotedStep(c, Run(c, Init(events)), Last(events));
    }
  }

  lemma NotedStep(c: Config, w: World, e: Event)
    requires Noted(w.s, w.log) && LogCurrent(w.s, w.log) && BytesSayNoStatus(w.log)
    ensures var u := Observe(c, w, e); Noted(u.s, u.log) && BytesSayNoStatus(u.log)
  {
    if Evaluates(e) {
      var t := Prepared(c, w.s, e);
      LadderNoted(c, t, w.log, e.ts, WindowSum(c, t.samples, e.ts));
      NoStatusSnoc(w.log, RunLadder(c, t, e.ts, WindowSum(c, t.samples, e.ts)).emitted);
    } else {
      SilentOtherwise(c, w.s, e);
      QuietNoted(c, w.s, e);
    }
  }

  lemma NoStatusSnoc(log: seq<Transition>, emitted: Option<Transition>)
    requires BytesSayNoStatus(log)
    requires emitted.Some? && emitted.value.decidedBy == Bytes ==> emitted.value.status == None
    ensures BytesSayNoStatus(Extend(log, emitted))
  {
  }

  lemma QuietNoted(c: Config, s: State, e: Event)
    requires !Evaluates(e)
    ensures var t := Next(c, s, e).state;
            t.emittedStatus == s.emittedStatus && t.emittedDecidedBy == s.emittedDecidedBy
  {
  }

  /** A snapshot says what the last notification said. */
  predicate Repeats(snapshot: Snapshot, last: Transition) {
    snapshot.state == last.state && snapshot.status == last.status && snapshot.decidedBy == Some(last.decidedBy)
  }

  /** When it does: the last notification was not decided by bytes; or it was, no earlier status is left over, and it
      was not a mere repetition of what another rung had decided. */
  predicate SnapshotCurrent(log: seq<Transition>)
    requires log != []
  {
    Last(log).decidedBy != Bytes || (NotedStatus(log) == None && NotedBy(log) == Some(Bytes))
  }

  /** At any moment of any run a snapshot carries the tracker's state, the status of the last notification not decided
      by bytes and the rung of the last one that was no byte repetition; so it says what the last notification said
      exactly under SnapshotCurrent. */
  lemma SnapshotExact(c: Config, events: seq<Event>, now: int)
    requires Possible(c, events)
    ensures var log, snapshot := Run(c, events).log, SnapshotOf(c, Run(c, events).s, now);
            && snapshot.state == (if log == [] then Inactive else Last(log).state)
            && snapshot.status == NotedStatus(log) && snapshot.decidedBy == NotedBy(log)
            && (log != [] ==> (Repeats(snapshot, Last(log)) <==> SnapshotCurrent(log)))
  {
    NotedAlways(c, events);
    EmissionDiscipline(c, events);
    if Run(c, events).log != [] {
      RepeatsExact(c, Run(c, events).s, Run(c, events).log, now);
    }
  }

  lemma RepeatsExact(c: Config, s: State, log: seq<Transition>, now: int)
    requires log != [] && Noted(s, log) && LogCurrent(s, log) && BytesSayNoStatus(log)
    ensures Repeats(SnapshotOf(c, s, now), Last(log)) <==> SnapshotCurrent(log)
  {
    if Last(log).decidedBy == Bytes {
      assert log[|log| - 1].status == None;
    }
  }

  lemma RunSnoc(c: Config, events: seq<Event>, e: Event)
    ensures Run(c, events + [e]) == Observe(c, Run(c, events), e)
    ensures Possible(c, events + [e]) <==> Possible(c, events) && Enabled(Run(c, events), e)
  {
    assert Init(events + [e]) == events;
  }

  /** A working screen that stops being read, then silence. */
  const STALE: seq<Event> := [Start(0), ScreenState(1, Working), ScreenState(2, Unknown)]

  /** The tracker once the working screen is published. */
  const SHOWN := INITIAL.(ticking := true, screenState := Working, state := Active,
                          emittedStatus := Some(StatusWorking), emittedDecidedBy := Some(Screen), lastActiveEmitTs := 1)

  lemma ShownStep(c: Config)
    ensures Next(c, INITIAL.(ticking := true), ScreenState(1, Working)).state == SHOWN
  {
  }

  lemma UnreadStep(c: Config)
    requires c.idleAfterMs > 2
    ensures Next(c, SHOWN, ScreenState(2, Unknown)) == Outcome(SHOWN.(screenState := Unknown), None)
  {
  }

  lemma StaleRun(c: Config)
    requires c.idleAfterMs > 2
    ensures Possible(c, STALE) && Run(c, STALE).now == 2 && Run(c, STALE).s == SHOWN.(screenState := Unknown)
  {
    var a, b, d := Start(0), ScreenState(1, Working), ScreenState(2, Unknown);
    RunSnoc(c, [], a);
    assert [] + [a] == [a];
    RunSnoc(c, [a], b);
    assert [a] + [b] == [a, b];
    ShownStep(c);
    RunSnoc(c, [a, b], d);
    assert [a, b] + [d] == STALE;
    UnreadStep(c);
  }

  /** Where a snapshot does not say it: the byte rung has announced idle without a status, and the snapshot still
      carries `working`. */
  lemma StaleStatus(c: Config, t: int)
    requires 2 < c.idleAfterMs <= t
    ensures var events := STALE + [Tick(t)];
            var w := Run(c, events);
            && Possible(c, events)
            && w.log != [] && Last(w.log).state == Inactive && Last(w.log).status == None
               && Last(w.log).decidedBy == Bytes
            && SnapshotOf(c, w.s, t).status == Some(StatusWorking) && SnapshotOf(c, w.s, t).decidedBy == Some(Bytes)
            && SnapshotOf(c, w.s, t).state == Inactive
  {
    StaleRun(c);
    RunSnoc(c, STALE, Tick(t));
  }

  // ---- A working or blocked screen ----

  /** A status that says whether a reading was working, blocked, or neither. */
  predicate SaysReading(status: Option<Status>, p: PaneState) {
    && (status == Some(StatusBlocked) <==> p == Blocked)
    && (status == Some(StatusWorking) <==> p == Working)
  }

  lemma EngagedIsImmediate(c: Config, s: State, now: int, p: PaneState)
    requires Engaged(p)
    ensures var t := Next(c, s, ScreenState(now, p)).state;
            && t.state == Active && t.emittedDecidedBy == Some(Screen) && t.idleHoldStart.None?
            && SaysReading(t.emittedStatus, p)
  {
  }

  /** When a working or blocked reading is not announced, told from the notifications before it: the byte rung has just
      repeated `active`, the last notification of another rung was the screen's with the same status, and no repetition
      is due yet. */
  predicate GoesUnannounced(log: seq<Transition>, p: PaneState, now: int) {
    && log != [] && BytesRepeat(log)
    && NotedBy(log) == Some(Screen) && SaysReading(NotedStatus(log), p)
    && now - Last(log).at < 15000
  }

  lemma EngagedEmits(c: Config, s: State, now: int, p: PaneState)
    requires Engaged(p)
    ensures var o := Next(c, s, ScreenState(now, p)).emitted;
            && (o.None? <==> s.state == Active && SaysReading(s.emittedStatus, p) && s.emittedDecidedBy == Some(Screen)
                             && now - s.lastActiveEmitTs < ACTIVE_RESEND_MS)
            && (o.Some? ==> o.value.decidedBy == Screen)
  {
  }

  /** Bytes noted as the screen's means bytes that only repeated. */
  lemma NotedByScreen(log: seq<Transition>)
    requires log != [] && Last(log).decidedBy == Bytes && NotedBy(log) == Some(Screen)
    ensures BytesRepeat(log)
  {
  }

  /** A working or blocked screen is what snapshots say at once, with its status, and closes any hold. */
  lemma EngagedIsShown(c: Config, events: seq<Event>, now: int, p: PaneState)
    requires Engaged(p) && Possible(c, events) && Enabled(Run(c, events), ScreenState(now, p))
    ensures var u := Run(c, events + [ScreenState(now, p)]);
            var shown := SnapshotOf(c, u.s, now);
            && shown.state == Active && shown.decidedBy == Some(Screen) && SaysReading(shown.status, p)
            && u.s.idleHoldStart.None?
            && u.log != [] && (Repeats(shown, Last(u.log)) <==> Last(u.log).decidedBy != Bytes)
  {
    var after := events + [ScreenState(now, p)];
    RunSnoc(c, events, ScreenState(now, p));
    EngagedIsImmediate(c, Run(c, events).s, now, p);
    SnapshotExact(c, after, now);
  }

  /** The last notification says it too, unless the reading goes unannounced: the notifications before the reading,
      and its time, decide. */
  lemma EngagedIsAnnounced(c: Config, events: seq<Event>, now: int, p: PaneState)
    requires Engaged(p) && Possible(c, events) && Enabled(Run(c, events), ScreenState(now, p))
    ensures var w, u := Run(c, events), Run(c, events + [ScreenState(now, p)]);
            && u.log != []
            && (Repeats(SnapshotOf(c, u.s, now), Last(u.log)) <==> !GoesUnannounced(w.log, p, now))
  {
    var w := Run(c, events);
    RunSnoc(c, events, ScreenState(now, p));
    EngagedIsShown(c, events, now, p);
    NotedAlways(c, events);
    EmissionDiscipline(c, events);
    AnnouncedStep(c, w.s, w.log, now, p);
  }

  lemma AnnouncedStep(c: Config, s: State, log: seq<Transition>, now: int, p: PaneState)
    requires Engaged(p) && Noted(s, log) && LogCurrent(s, log)
    ensures var after := Extend(log, Next(c, s, ScreenState(now, p)).emitted);
            after != [] && (Last(after).decidedBy == Bytes <==> GoesUnannounced(log, p, now))
  {
    EngagedEmits(c, s, now, p);
    var o := Next(c, s, ScreenState(now, p)).emitted;
    if o.None? && Last(log).decidedBy == Bytes {
      NotedByScreen(log);
    }
  }

  lemma OneSample(samples: seq<Sample>, x: Sample, cutoff: int)
    requires samples == [x] && x.ts >= cutoff
    ensures Since(samples, cutoff) == samples && Total(samples) == x.bytes
  {
    SinceSnoc([], x, cutoff);
    assert [] + [x] == samples;
    assert samples[..0] == [];
  }

  lemma OneSampleSum(c: Config, samples: seq<Sample>, x: Sample, now: int)
    requires samples == [x] && x.ts >= now - c.windowMs
    ensures WindowSum(c, Since(samples, now - c.windowMs), now) == x.bytes
  {
    OneSample(samples, x, now - c.windowMs);
  }

  /** A tracker that shows the working screen while the byte rung decides. */
  predicate ShowsWorking(s: State, at: int) {
    && s.state == Active && s.emittedDecidedBy == Some(Screen) && s.emittedStatus == Some(StatusWorking)
    && s.lastActiveEmitTs == at
  }

  /** Enough output repeats `active` without a status. */
  lemma RepeatStep(c: Config, s: State, now: int)
    requires ShowsWorking(s, 1) && Decide(s).ByBytes? && s.freshBytes && now >= 1 + ACTIVE_RESEND_MS
    requires !Engaged(s.titleState)
    requires WindowSum(c, Since(s.samples, now - c.windowMs), now) >= c.activeThresholdBytes
    ensures var o, sum := Next(c, s, Tick(now)), WindowSum(c, Since(s.samples, now - c.windowMs), now);
            ShowsWorking(o.state, now) && o.emitted == Some(Transition(now, Active, sum, None, Bytes))
  {
    RepeatRung(c, Prepared(c, s, Tick(now)), now, WindowSum(c, Since(s.samples, now - c.windowMs), now));
  }

  lemma RepeatRung(c: Config, s: State, now: int, sum: nat)
    requires ShowsWorking(s, 1) && Decide(s).ByBytes? && s.freshBytes && now >= 1 + ACTIVE_RESEND_MS
    requires !Engaged(s.titleState) && sum >= c.activeThresholdBytes
    ensures var o := RunLadder(c, s, now, sum);
            ShowsWorking(o.state, now) && o.emitted == Some(Transition(now, Active, sum, None, Bytes))
  {
  }

  lemma RecordStep(c: Config, n: nat)
    ensures var s := SHOWN.(screenState := Unknown);
            Next(c, s, Record(15001, n))
            == Outcome(s.(samples := [Sample(15001, n)], freshBytes := true), None)
  {
  }

  lemma AgainStep(c: Config, s: State)
    requires ShowsWorking(s, 15001)
    ensures Next(c, s, ScreenState(15002, Working)).emitted.None?
  {
  }

  /** The output that hides a working screen: the screen is not read for a while, output repeats `active`, and then the
      screen reads working again. */
  function Hiding(n: nat): seq<Event> {
    STALE + [Record(15001, n)] + [Tick(15001)] + [ScreenState(15002, Working)]
  }

  /** The working screen is shown, the byte rung decides, and x is the only output. */
  predicate AboutToRepeat(s: State, x: Sample) {
    && ShowsWorking(s, 1) && Decide(s).ByBytes? && !Engaged(s.titleState) && s.ticking
    && s.freshBytes && s.samples == [x]
  }

  lemma RecordedRun(c: Config, n: nat)
    requires c.idleAfterMs > 2
    ensures var w := Run(c, STALE + [Record(15001, n)]);
            && Possible(c, STALE + [Record(15001, n)]) && w.now == 15001
            && AboutToRepeat(w.s, Sample(15001, n))
  {
    StaleRun(c);
    RunSnoc(c, STALE, Record(15001, n));
    RecordStep(c, n);
  }

  lemma RepeatObserved(c: Config, w: World, n: nat)
    requires AboutToRepeat(w.s, Sample(15001, n)) && n >= c.activeThresholdBytes
    ensures var u := Observe(c, w, Tick(15001));
            && u.now == 15001 && ShowsWorking(u.s, 15001)
            && u.log != [] && Last(u.log) == Transition(15001, Active, n, None, Bytes)
  {
    OneSampleSum(c, w.s.samples, Sample(15001, n), 15001);
    RepeatStep(c, w.s, 15001);
  }

  lemma RepeatedRun(c: Config, n: nat)
    requires c.idleAfterMs > 2 && n >= c.activeThresholdBytes
    ensures var events := STALE + [Record(15001, n)] + [Tick(15001)];
            var w := Run(c, events);
            && Possible(c, events) && w.now == 15001 && ShowsWorking(w.s, 15001)
            && w.log != [] && Last(w.log) == Transition(15001, Active, n, None, Bytes)
  {
    var recorded := STALE + [Record(15001, n)];
    RecordedRun(c, n);
    RunSnoc(c, recorded, Tick(15001));
    RepeatObserved(c, Run(c, recorded), n);
  }

  /** Where the last notification does not say it: a screen has just been read as working, and the last notification is
      still the byte rung's, without a status. */
  lemma HiddenWorking(c: Config, n: nat)
    requires c.idleAfterMs > 2 && n >= c.activeThresholdBytes
    ensures var w := Run(c, Hiding(n));
            Possible(c, Hiding(n)) && w.log != [] && Last(w.log) == Transition(15001, Active, n, None, Bytes)
  {
    var before := STALE + [Record(15001, n)] + [Tick(15001)];
    RepeatedRun(c, n);
    RunSnoc(c, before, ScreenState(15002, Working));
    AgainStep(c, Run(c, before).s);
  }

  predicate Keeps(s: State, now: int, o: Outcome) {
    s.state == Active && now - s.lastActiveEmitTs >= ACTIVE_RESEND_MS ==>
      o.emitted.Some? || (o.state.state == Active && o.state.idleHoldStart.Some?)
  }

  lemma ApplyKeeps(s: State, now: int, sum: nat, p: PaneState, rung: DecidedBy)
    ensures Keeps(s, now, Apply(s, now, sum, p, rung))
  {
  }

  lemma LadderKeeps(c: Config, s: State, now: int, sum: nat)
    ensures Keeps(s, now, RunLadder(c, s, now, sum))
  {
    match Decide(s)
    case ByScreen(p) => ApplyKeeps(s, now, sum, p, Screen);
    case ByTitle(p) => ApplyKeeps(if Engaged(p) then s.(titleAuthoritative := true) else s, now, sum, p, Title);
    case ByBytes =>
  }

  /** An agent that has been active for fifteen seconds without a notice sends one at the next evaluation, unless an
      idle reading is waiting to be confirmed. */
  lemma KeepaliveIsSent(c: Config, events: seq<Event>, e: Event)
    requires Possible(c, events) && Enabled(Run(c, events), e) && Evaluates(e)
    requires var w := Run(c, events);
             w.s.state == Active && w.log != [] && e.ts - w.log[|w.log| - 1].at >= ACTIVE_RESEND_MS
    ensures var o := Next(c, Run(c, events).s, e);
            o.emitted.Some? || (o.state.state == Active && o.state.idleHoldStart.Some?)
  {
    EmissionDiscipline(c, events);
    var w := Run(c, events);
    var t := Prepared(c, w.s, e);
    LadderKeeps(c, t, e.ts, WindowSum(c, t.samples, e.ts));
  }

  // ---- The idle hold ----

  /** An idle or error reading of the screen that found the tracker active and was not announced. */
  predicate HeldBack(v: Verdict) {
    v.rung == Screen && Resting(v.pane) && v.active && !v.announced
  }

  /** How many of the last verdicts were held back in a row. */
  function HeldReadings(verdicts: seq<Verdict>): (n: nat)
    ensures n <= |verdicts|
  {
    if verdicts == [] || !HeldBack(Last(verdicts)) then 0 else HeldReadings(Init(verdicts)) + 1
  }

  /** The hold is told by the verdicts alone: it counts those held back, and opened at the first of them. */
  predicate HoldTracked(s: State, verdicts: seq<Verdict>) {
    var n := HeldReadings(verdicts);
    && s.idleHoldCount == n < IDLE_CONFIRMATIONS
    && s.idleHoldStart == if n == 0 then None else Some(verdicts[|verdicts| - n].at)
  }

  /** While the hold is open under a screen at rest the tracker is still active and, unless stopped, a recheck is
      armed. */
  predicate HoldArmed(s: State, stopped: bool) {
    s.idleHoldStart.Some? && Resting(s.screenState) ==> s.state == Active && (stopped || s.idleHoldTimer.Some?)
  }

  predicate HoldInvariant(w: World) {
    HoldTracked(w.s, w.verdicts) && HoldArmed(w.s, w.stopped)
  }

  lemma PublishFields(s: State, now: int, sum: nat, desired: Activity, status: Option<Status>, rung: DecidedBy)
    ensures var t := Publish(s, now, sum, desired, status, rung).state;
            && t.idleHoldStart == s.idleHoldStart && t.idleHoldCount == s.idleHoldCount
               && t.idleHoldTimer == s.idleHoldTimer
            && t.screenState == s.screenState && t.state == desired
  {
  }

  lemma HeldSnoc(verdicts: seq<Verdict>, v: Verdict)
    ensures HeldReadings(verdicts + [v]) == if HeldBack(v) then HeldReadings(verdicts) + 1 else 0
  {
    assert Init(verdicts + [v]) == verdicts;
  }

  /** What a verdict does to the hold. */
  lemma ApplyHold(s: State, now: int, sum: nat, p: PaneState, rung: DecidedBy)
    requires rung != Bytes
    ensures var o := Apply(s, now, sum, p, rung);
            var t := if rung == Screen && Resting(p) && s.state == Active then HoldIdle(s, now) else ResetIdleHold(s);
            && o.state.idleHoldStart == t.idleHoldStart && o.state.idleHoldCount == t.idleHoldCount
            && o.state.idleHoldTimer == t.idleHoldTimer && o.state.screenState == s.screenState
            && (rung == Screen && Resting(p) && s.state == Active ==>
                  && (o.emitted.Some? <==> HoldEnds(s, now))
                  && (o.state.state == Active <==> !HoldEnds(s, now)))
  {
    var desired := if Resting(p) then Inactive else Active;
    PublishFields(HoldIdle(s, now), now, sum, desired, StatusOf(p), rung);
    PublishFields(ResetIdleHold(s), now, sum, desired, StatusOf(p), rung);
  }

  /** One verdict keeps the hold told by the verdicts. */
  lemma TrackedStep(s: State, t: State, verdicts: seq<Verdict>, v: Verdict)
    requires HoldTracked(s, verdicts)
    requires var held := v.rung == Screen && Resting(v.pane) && v.active;
             var h := if held then HoldIdle(s, v.at) else ResetIdleHold(s);
             && t.idleHoldStart == h.idleHoldStart && t.idleHoldCount == h.idleHoldCount
             && (held ==> (v.announced <==> HoldEnds(s, v.at)))
    ensures HoldTracked(t, verdicts + [v])
  {
    HeldSnoc(verdicts, v);
  }

  lemma BytesHold(c: Config, s: State, now: int, sum: nat)
    ensures var t := BytesRung(c, s, now, sum).state;
            && t.idleHoldStart == s.idleHoldStart && t.idleHoldCount == s.idleHoldCount
            && t.idleHoldTimer == s.idleHoldTimer && t.screenState == s.screenState
  {
  }

  function WithVerdict(c: Config, s: State, verdicts: seq<Verdict>, now: int, sum: nat, noticed: nat): seq<Verdict> {
    if Decide(s).ByBytes? then verdicts
    else verdicts + [VerdictOf(Decide(s), now, s.state == Active, RunLadder(c, s, now, sum).emitted.Some?, noticed)]
  }

  lemma LadderHold(c: Config, s: State, verdicts: seq<Verdict>, now: int, sum: nat, noticed: nat, stopped: bool)
    requires HoldTracked(s, verdicts)
    ensures var t := RunLadder(c, s, now, sum).state;
            HoldTracked(t, WithVerdict(c, s, verdicts, now, sum, noticed)) && HoldArmed(t, stopped)
  {
    var o := RunLadder(c, s, now, sum);
    match Decide(s)
    case ByScreen(p) =>
      ApplyHold(s, now, sum, p, Screen);
      TrackedStep(s, o.state, verdicts, VerdictOf(Decide(s), now, s.state == Active, o.emitted.Some?, noticed));
    case ByTitle(p) =>
      ApplyHold(if Engaged(p) then s.(titleAuthoritative := true) else s, now, sum, p, Title);
      TrackedStep(s, o.state, verdicts, VerdictOf(Decide(s), now, s.state == Active, o.emitted.Some?, noticed));
    case ByBytes => BytesHold(c, s, now, sum);
  }

  lemma ObservedVerdicts(c: Config, w: World, e: Event)
    ensures Observe(c, w, e).verdicts
         == if Evaluates(e) then
              var t := Prepared(c, w.s, e);
              WithVerdict(c, t, w.verdicts, e.ts, WindowSum(c, t.samples, e.ts), |w.log|)
            else w.verdicts
  {
  }

  lemma PreparedHold(c: Config, s: State, e: Event)
    requires Evaluates(e)
    ensures var t := Prepared(c, s, e);
            t.idleHoldStart == s.idleHoldStart && t.idleHoldCount == s.idleHoldCount && t.state == s.state
  {
  }

  lemma QuietHold(c: Config, s: State, e: Event, stopped: bool)
    requires !Evaluates(e) && HoldArmed(s, stopped)
    ensures var t := Next(c, s, e).state;
            && t.idleHoldStart == s.idleHoldStart && t.idleHoldCount == s.idleHoldCount && t.state == s.state
            && HoldArmed(t, stopped || e.Stop?)
  {
  }

  lemma HoldStep(c: Config, w: World, e: Event)
    requires HoldInvariant(w)
    ensures HoldInvariant(Observe(c, w, e))
  {
    ObservedVerdicts(c, w, e);
    if Evaluates(e) {
      var t := Prepared(c, w.s, e);
      PreparedHold(c, w.s, e);
      LadderHold(c, t, w.verdicts, e.ts, WindowSum(c, t.samples, e.ts), |w.log|, w.stopped);
    } else {
      QuietHold(c, w.s, e, w.stopped);
    }
  }

  /** In every run the hold counts the idle readings held back in a row, opened at the first of them, and has a recheck
      armed while it lasts. */
  lemma {:induction false} HoldAlwaysTracked(c: Config, events: seq<Event>)
    requires Possible(c, events)
    ensures HoldInvariant(Run(c, events))
  {
    if events != [] {
      HoldAlwaysTracked(c, Init(events));
      HoldStep(c, Run(c, Init(events)), Last(events));
    }
  }

  predicate ScreenIdles(o: Outcome) {
    o.emitted.Some? && o.emitted.value.state == Inactive && o.emitted.value.decidedBy == Screen
  }

  /** The readings held back justify publishing idle on one more: there are enough of them, or the first is long enough
      ago. */
  predicate Confirmed(verdicts: seq<Verdict>, now: int) {
    var n := HeldReadings(verdicts);
    n > 0 && (n >= 2 || now - verdicts[|verdicts| - n].at >= 700)
  }

  lemma HeldConfirms(s: State, verdicts: seq<Verdict>, now: int)
    requires HoldTracked(s, verdicts)
    ensures HoldEnds(s, now) <==> Confirmed(verdicts, now)
  {
  }

  lemma ScreenIdlesWhen(c: Config, s: State, now: int, sum: nat)
    requires s.state == Active
    ensures ScreenIdles(RunLadder(c, s, now, sum)) <==> Resting(s.screenState) && HoldEnds(s, now)
  {
    if Decide(s).ByTitle? {
      TitleEmits(c, s, now, sum);
    }
  }

  lemma TitleEmits(c: Config, s: State, now: int, sum: nat)
    requires Decide(s).ByTitle?
    ensures var o := RunLadder(c, s, now, sum); o.emitted.Some? ==> o.emitted.value.decidedBy == Title
  {
  }

  lemma SilentOtherwise(c: Config, s: State, e: Event)
    requires !Evaluates(e)
    ensures Next(c, s, e).emitted.None?
  {
  }

  /** What the screen reads at an evaluation. */
  function ScreenAt(s: State, e: Event): PaneState {
    if e.ScreenState? then e.screen else s.screenState
  }

  lemma IdleStep(c: Config, w: World, e: Event)
    requires HoldInvariant(w) && w.s.state == Active
    ensures ScreenIdles(Next(c, w.s, e))
       <==> Evaluates(e) && Resting(ScreenAt(w.s, e)) && Confirmed(w.verdicts, e.ts)
  {
    if Evaluates(e) {
      var t := Prepared(c, w.s, e);
      PreparedHold(c, w.s, e);
      ScreenIdlesWhen(c, t, e.ts, WindowSum(c, t.samples, e.ts));
      HeldConfirms(w.s, w.verdicts, e.ts);
    } else {
      SilentOtherwise(c, w.s, e);
    }
  }

  /** In every run, a screen publishes active to idle exactly at an evaluation that reads idle or error after readings
      held back in a row that confirm it: two of them, or the first 700 ms ago. A reading with none held back before
      it never does. */
  lemma IdleIsConfirmed(c: Config, events: seq<Event>, e: Event)
    requires Possible(c, events) && Enabled(Run(c, events), e) && Run(c, events).s.state == Active
    ensures var w := Run(c, events);
            ScreenIdles(Next(c, w.s, e))
            <==> Evaluates(e) && Resting(ScreenAt(w.s, e)) && Confirmed(w.verdicts, e.ts)
  {
    HoldAlwaysTracked(c, events);
    IdleStep(c, Run(c, events), e);
  }

  predicate RestingByScreen(v: Verdict) {
    v.rung == Screen && Resting(v.pane)
  }

  /** The last n verdicts are idle or error readings of the screen. */
  predicate RestingTail(verdicts: seq<Verdict>, n: nat) {
    n <= |verdicts| && forall i | |verdicts| - n <= i < |verdicts| :: RestingByScreen(verdicts[i])
  }

  lemma {:induction false} HeldAreResting(verdicts: seq<Verdict>)
    ensures RestingTail(verdicts, HeldReadings(verdicts))
  {
    if verdicts != [] && HeldBack(Last(verdicts)) {
      HeldAreResting(Init(verdicts));
    }
  }

  /** The hold was open, every verdict since it opened was an idle or error reading of the screen, and with the last one
      there are three of them, or it opened 700 ms ago. */
  predicate HoldConfirmed(s: State, verdicts: seq<Verdict>, now: int) {
    var n := s.idleHoldCount + 1;
    && s.idleHoldStart.Some? && RestingTail(verdicts, n)
    && verdicts[|verdicts| - n].at == s.idleHoldStart.value
    && (n >= 3 || now - s.idleHoldStart.value >= 700)
  }

  /** The same, told by the hold. */
  lemma IdleEndsHold(c: Config, events: seq<Event>, e: Event)
    requires Possible(c, events) && Enabled(Run(c, events), e) && Run(c, events).s.state == Active
    requires ScreenIdles(Next(c, Run(c, events).s, e))
    ensures HoldConfirmed(Run(c, events).s, Run(c, events + [e]).verdicts, e.ts)
  {
    HoldAlwaysTracked(c, events);
    RunSnoc(c, events, e);
    IdleEndsStep(c, Run(c, events), e);
  }

  lemma IdleEndsStep(c: Config, w: World, e: Event)
    requires HoldInvariant(w) && w.s.state == Active && ScreenIdles(Next(c, w.s, e))
    ensures HoldConfirmed(w.s, Observe(c, w, e).verdicts, e.ts)
  {
    IdleStep(c, w, e);
    RestingVerdict(c, w, e);
    HeldAreResting(w.verdicts);
    OneMoreResting(w.verdicts, Observe(c, w, e).verdicts, w.s.idleHoldCount);
  }

  /** An evaluation of a screen at rest leaves one more verdict, which says so. */
  lemma RestingVerdict(c: Config, w: World, e: Event)
    requires Evaluates(e) && Resting(ScreenAt(w.s, e))
    ensures var u := Observe(c, w, e);
            && |u.verdicts| == |w.verdicts| + 1 && w.verdicts <= u.verdicts && RestingByScreen(Last(u.verdicts))
  {
    ObservedVerdicts(c, w, e);
  }

  lemma OneMoreResting(verdicts: seq<Verdict>, after: seq<Verdict>, n: nat)
    requires RestingTail(verdicts, n) && |after| == |verdicts| + 1 && verdicts <= after && RestingByScreen(Last(after))
    ensures RestingTail(after, n + 1) && (n > 0 ==> after[|after| - (n + 1)] == verdicts[|verdicts| - n])
  {
  }

  // ---- The hold ends ----

  /** How many more evaluations under a screen at rest it takes to publish idle. */
  function Remaining(s: State): int {
    if s.state == Inactive then 0
    else if s.idleHoldStart.None? then IDLE_CONFIRMATIONS
    else IDLE_CONFIRMATIONS - s.idleHoldCount
  }

  /** The screen is not read as anything but idle or error. */
  predicate KeepsRest(e: Event) {
    e.ScreenState? ==> Resting(e.screen)
  }

  predicate AllKeepRest(events: seq<Event>) {
    forall i | 0 <= i < |events| :: KeepsRest(events[i])
  }

  function Evaluations(events: seq<Event>): nat {
    if events == [] then 0 else Evaluations(Init(events)) + (if Evaluates(Last(events)) then 1 else 0)
  }

  lemma RestLadder(c: Config, s: State, now: int, sum: nat)
    requires Resting(s.screenState)
    requires s.idleHoldStart.Some? ==> 1 <= s.idleHoldCount < IDLE_CONFIRMATIONS
    ensures var t := RunLadder(c, s, now, sum).state;
            t.screenState == s.screenState && (Remaining(t) == 0 || Remaining(t) < Remaining(s))
            && (s.state == Inactive ==> t.state == Inactive)
  {
  }

  lemma RestStep(c: Config, w: World, e: Event)
    requires HoldInvariant(w) && Resting(w.s.screenState) && KeepsRest(e)
    ensures var t := Next(c, w.s, e).state;
            && Resting(t.screenState)
            && (if Evaluates(e) then Remaining(t) == 0 || Remaining(t) < Remaining(w.s)
                else Remaining(t) == Remaining(w.s))
            && (w.s.state == Inactive ==> t.state == Inactive)
  {
    if Evaluates(e) {
      var t := Prepared(c, w.s, e);
      PreparedHold(c, w.s, e);
      RestLadder(c, t, e.ts, WindowSum(c, t.samples, e.ts));
    }
  }

  /** How far n evaluations at rest have brought the tracker. */
  predicate RestProgress(before: State, after: State, n: nat) {
    && Resting(after.screenState)
    && (after.state == Inactive || Remaining(after) <= Remaining(before) - n)
    && (n >= IDLE_CONFIRMATIONS ==> after.state == Inactive)
  }

  lemma RestingRemaining(s: State)
    requires s.idleHoldStart.Some? ==> 1 <= s.idleHoldCount < IDLE_CONFIRMATIONS
    ensures 0 <= Remaining(s) <= IDLE_CONFIRMATIONS && (Remaining(s) == 0 <==> s.state == Inactive)
  {
  }

  lemma RestProgressStep(c: Config, before: State, w: World, e: Event, n: nat)
    requires HoldInvariant(w) && RestProgress(before, w.s, n) && KeepsRest(e)
    requires 0 <= Remaining(before) <= IDLE_CONFIRMATIONS && HoldInvariant(Observe(c, w, e))
    ensures RestProgress(before, Next(c, w.s, e).state, n + if Evaluates(e) then 1 else 0)
  {
    RestStep(c, w, e);
    RestingRemaining(w.s);
    RestingRemaining(Next(c, w.s, e).state);
  }

  lemma RestBegins(c: Config, events: seq<Event>)
    requires Possible(c, events) && Resting(Run(c, events).s.screenState)
    ensures RestProgress(Run(c, events).s, Run(c, events).s, 0)
            && 0 <= Remaining(Run(c, events).s) <= IDLE_CONFIRMATIONS
  {
    HoldAlwaysTracked(c, events);
    RestingRemaining(Run(c, events).s);
  }

  /** While the screen stays at rest, every evaluation brings idle nearer: the third one at the latest publishes it. */
  lemma {:induction false} IdleByThirdEvaluation(c: Config, events: seq<Event>, more: seq<Event>)
    requires Possible(c, events) && Possible(c, events + more) && AllKeepRest(more)
    requires Resting(Run(c, events).s.screenState)
    ensures RestProgress(Run(c, events).s, Run(c, events + more).s, Evaluations(more))
  {
    RestBegins(c, events);
    if more == [] {
      assert events + more == events;
    } else {
      var init, e := Init(more), Last(more);
      assert Init(events + more) == events + init && Last(events + more) == e;
      IdleByThirdEvaluation(c, events, init);
      HoldAlwaysTracked(c, events + init);
      HoldStep(c, Run(c, events + init), e);
      RestProgressStep(c, Run(c, events).s, Run(c, events + init), e, Evaluations(init));
    }
  }
}
