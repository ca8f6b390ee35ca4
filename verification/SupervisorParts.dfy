/** Every run of the wired supervisor is, seen from each part, a run of that part: what is proved of the parts alone
    holds of the whole. */
module SupervisorParts {
  import opened Options
  import opened Runs
  import opened AgentTitles
  import A = ActivityTracker
  import AR = ActivityRuns
  import G = ReadinessGate
  import H = HubClient
  import HR = HubRuns
  import opened Supervisor
  import opened SupervisorRuns

  // ---- The tracker ----

  function TrackerEventsOf(c: Config, s: State, e: Event): seq<A.Event> {
    match e
    case Data(now, bytes, chunk) => [A.Record(now, bytes), A.TitleState(now, Next(c, s, e).titles.status.state)]
    case Resized(now) => [A.Resize(now)]
    case Typed(now) => [A.Input(now)]
    case ScreenRead(now, screen) => [A.ScreenState(now, screen)]
    case TrackerTick(now) => [A.Tick(now)]
    case HoldRecheck(now) => [A.Recheck(now)]
    case _ => []
  }

  function TrackerEvents(c: Config, launch: Launch, events: seq<Event>): seq<A.Event> {
    if events == [] then [A.Start(launch.at)]
    else TrackerEvents(c, launch, Init(events)) + TrackerEventsOf(c, Run(c, launch, Init(events)), Last(events))
  }

  lemma TrackerSnoc(c: A.Config, events: seq<A.Event>, e: A.Event)
    ensures AR.Run(c, events + [e]) == AR.Observe(c, AR.Run(c, events), e)
    ensures AR.Possible(c, events + [e]) <==> AR.Possible(c, events) && AR.Enabled(AR.Run(c, events), e)
  {
    assert Init(events + [e]) == events;
  }

  lemma KeepsTicking(c: A.Config, s: A.State, e: A.Event)
    requires s.ticking && !e.Stop?
    ensures A.Next(c, s, e).state.ticking
  {
    if A.Evaluates(e) {
      var t := A.Prepared(c, s, e);
      LadderTicking(c, t, e.ts, A.WindowSum(c, t.samples, e.ts));
    }
  }

  lemma ApplyTicking(s: A.State, now: int, sum: nat, p: PaneState, rung: A.DecidedBy)
    ensures A.Apply(s, now, sum, p, rung).state.ticking == s.ticking
  {
  }

  lemma LadderTicking(c: A.Config, s: A.State, now: int, sum: nat)
    ensures A.RunLadder(c, s, now, sum).state.ticking == s.ticking
  {
    match A.Decide(s)
    case ByScreen(p) => ApplyTicking(s, now, sum, p, A.Screen);
    case ByTitle(p) => ApplyTicking(if A.Engaged(p) then s.(titleAuthoritative := true) else s, now, sum, p, A.Title);
    case ByBytes =>
  }

  predicate TrackerPart(c: Config, w: AR.World, s: State, now: int) {
    w.s == s.tracker && w.now <= now && s.tracker.ticking
  }

  lemma TrackerOne(c: Config, events: seq<A.Event>, s: State, now: int, e: A.Event)
    requires AR.Possible(c.tracker, events) && TrackerPart(c, AR.Run(c.tracker, events), s, now)
    requires now <= e.ts && !e.Stop?
    requires e.Recheck? ==> s.tracker.idleHoldTimer.Some? && s.tracker.idleHoldTimer.value <= e.ts
    ensures AR.Possible(c.tracker, events + [e])
    ensures TrackerPart(c, AR.Run(c.tracker, events + [e]), Track(c, s, e), e.ts)
  {
    TrackerSnoc(c.tracker, events, e);
    KeepsTicking(c.tracker, s.tracker, e);
  }

  lemma TrackerData(c: Config, events: seq<A.Event>, s: State, now: int, e: Event)
    requires AR.Possible(c.tracker, events) && TrackerPart(c, AR.Run(c.tracker, events), s, now)
    requires now <= e.ts && e.Data?
    ensures var all := events + TrackerEventsOf(c, s, e);
            AR.Possible(c.tracker, all) && TrackerPart(c, AR.Run(c.tracker, all), Next(c, s, e), e.ts)
  {
    var first := A.Record(e.ts, e.bytes);
    var t := Track(c, s, first);
    TrackerOne(c, events, s, now, first);
    var titled := t.(titles := Next(c, s, e).titles);
    var second := A.TitleState(e.ts, titled.titles.status.state);
    TrackerOne(c, events + [first], titled, e.ts, second);
    TwoMore(events, first, second);
  }

  lemma TwoMore<E>(events: seq<E>, first: E, second: E)
    ensures events + [first, second] == (events + [first]) + [second]
  {
  }

  lemma NoneMore<E>(events: seq<E>)
    ensures events + [] == events
  {
  }

  lemma TrackerEvent(c: Config, events: seq<A.Event>, s: State, now: int, e: Event)
    requires AR.Possible(c.tracker, events) && TrackerPart(c, AR.Run(c.tracker, events), s, now)
    requires now <= e.ts && Enabled(s, e)
    ensures var all := events + TrackerEventsOf(c, s, e);
            AR.Possible(c.tracker, all) && TrackerPart(c, AR.Run(c.tracker, all), Next(c, s, e), e.ts)
  {
    match e
    case Data(_, _, _) => TrackerData(c, events, s, now, e);
    case Resized(t) => TrackerOne(c, events, s, now, A.Resize(t));
    case Typed(t) => TrackerOne(c, events, s, now, A.Input(t));
    case ScreenRead(t, screen) => TrackerOne(c, events, s, now, A.ScreenState(t, screen));
    case TrackerTick(t) => TrackerOne(c, events, s, now, A.Tick(t));
    case HoldRecheck(t) => TrackerOne(c, events, s, now, A.Recheck(t));
    case _ => NoneMore(events);
  }

  /** The tracker of a supervisor run is in a run of its own. */
  lemma {:induction false} TrackerRun(c: Config, launch: Launch, events: seq<Event>)
    requires Possible(c, launch, events)
    ensures AR.Possible(c.tracker, TrackerEvents(c, launch, events))
    ensures AR.Run(c.tracker, TrackerEvents(c, launch, events)).s == Run(c, launch, events).tracker
    ensures TrackerPart(c, AR.Run(c.tracker, TrackerEvents(c, launch, events)), Run(c, launch, events),
                        Now(launch, events))
  {
    if events == [] {
      assert [A.Start(launch.at)] == [] + [A.Start(launch.at)];
      TrackerSnoc(c.tracker, [], A.Start(launch.at));
    } else {
      TrackerRun(c, launch, Init(events));
      TrackerEvent(c, TrackerEvents(c, launch, Init(events)), Run(c, launch, Init(events)), Now(launch, Init(events)),
                   Last(events));
    }
  }

  // ---- The gate ----

  function GateEventsOf(e: Event): seq<G.Event> {
    match e
    case Data(now, bytes, _) => [G.Output(now, bytes)]
    case QuietTimer(now) => [G.QuietTimer(now)]
    case FallbackTimer(now) => [G.FallbackTimer(now)]
    case _ => []
  }

  function GateEvents(launch: Launch, events: seq<Event>): seq<G.Event> {
    if events == [] then [G.Listen(launch.at, HUB_LISTENER)]
    else GateEvents(launch, Init(events)) + GateEventsOf(Last(events))
  }

  lemma GateSnoc(c: G.Config, events: seq<G.Event>, e: G.Event)
    requires events != []
    ensures G.Run(c, events + [e]) == G.Next(c, G.Run(c, events), e)
    ensures G.Possible(c, events + [e])
       <==> G.Possible(c, events) && G.Enabled(G.Run(c, events), e) && Last(events).ts <= e.ts
  {
    assert Init(events + [e]) == events;
  }

  predicate GatePart(c: Config, gateEvents: seq<G.Event>, s: State, now: int) {
    && gateEvents != [] && Last(gateEvents).ts <= now && G.Possible(c.gate, gateEvents)
    && G.Run(c.gate, gateEvents) == s.gate
  }

  lemma GateEvent(c: Config, gateEvents: seq<G.Event>, s: State, now: int, e: Event)
    requires GatePart(c, gateEvents, s, now) && now <= e.ts && Enabled(s, e)
    ensures GatePart(c, gateEvents + GateEventsOf(e), Next(c, s, e), e.ts)
  {
    match e
    case Data(t, bytes, _) => GateSnoc(c.gate, gateEvents, G.Output(t, bytes));
    case QuietTimer(t) => GateSnoc(c.gate, gateEvents, G.QuietTimer(t));
    case FallbackTimer(t) => GateSnoc(c.gate, gateEvents, G.FallbackTimer(t));
    case _ => NoneMore(gateEvents);
  }

  lemma GateStarts(c: Config, launch: Launch)
    ensures GatePart(c, [G.Listen(launch.at, HUB_LISTENER)], Boot(c, launch.at, launch.created), launch.at)
  {
    var all := [G.Listen(launch.at, HUB_LISTENER)];
    assert Init(all) == [] && Last(all) == G.Listen(launch.at, HUB_LISTENER);
    assert G.Run(c.gate, all) == G.Next(c.gate, G.INITIAL, Last(all));
    assert G.Possible(c.gate, Init(all)) && G.Enabled(G.INITIAL, Last(all));
  }

  /** The gate of a supervisor run is in a run of its own. */
  lemma {:induction false} GateRun(c: Config, launch: Launch, events: seq<Event>)
    requires Possible(c, launch, events)
    ensures GatePart(c, GateEvents(launch, events), Run(c, launch, events), Now(launch, events))
  {
    if events == [] {
      GateStarts(c, launch);
    } else {
      GateRun(c, launch, Init(events));
      GateEvent(c, GateEvents(launch, Init(events)), Run(c, launch, Init(events)), Now(launch, Init(events)),
                Last(events));
    }
  }

  /** The child's output as the gate sees it. */
  function OutputsOf(events: seq<Event>): seq<G.Event> {
    if events == [] then []
    else OutputsOf(Init(events)) + (if Last(events).Data? then [G.Output(Last(events).ts, Last(events).bytes)] else [])
  }

  lemma OutputsSnoc(events: seq<G.Event>, e: G.Event)
    ensures G.Outputs(events + [e]) == G.Outputs(events) + (if e.Output? then [e] else [])
  {
    assert Init(events + [e]) == events;
  }

  lemma {:induction false} OutputsAreData(launch: Launch, events: seq<Event>)
    ensures G.Outputs(GateEvents(launch, events)) == OutputsOf(events)
  {
    if events == [] {
      assert [] + [G.Listen(launch.at, HUB_LISTENER)] == [G.Listen(launch.at, HUB_LISTENER)];
      OutputsSnoc([], G.Listen(launch.at, HUB_LISTENER));
    } else {
      OutputsAreData(launch, Init(events));
      OutputsStep(GateEvents(launch, Init(events)), Last(events));
    }
  }

  lemma OutputsStep(gateEvents: seq<G.Event>, e: Event)
    ensures G.Outputs(gateEvents + GateEventsOf(e))
         == G.Outputs(gateEvents) + (if e.Data? then [G.Output(e.ts, e.bytes)] else [])
  {
    match e
    case Data(t, bytes, _) => OutputsSnoc(gateEvents, G.Output(t, bytes));
    case QuietTimer(t) => OutputsSnoc(gateEvents, G.QuietTimer(t));
    case FallbackTimer(t) => OutputsSnoc(gateEvents, G.FallbackTimer(t));
    case _ => NoneMore(gateEvents);
  }

  /** In a supervisor run the child is held ready only after a long enough silence; and when the gate's timers are on
      time and none is due, exactly then. */
  lemma ReadyIffBooted(c: Config, launch: Launch, events: seq<Event>, t: int)
    requires Possible(c, launch, events) && Now(launch, events) <= t
    ensures Run(c, launch, events).gate.ready ==> G.Booted(c.gate, OutputsOf(events), t)
    ensures G.Punctual(c.gate, GateEvents(launch, events)) && G.NothingDue(Run(c, launch, events).gate, t) ==>
              (Run(c, launch, events).gate.ready <==> G.Booted(c.gate, OutputsOf(events), t))
  {
    var all := GateEvents(launch, events);
    GateRun(c, launch, events);
    OutputsAreData(launch, events);
    G.ReadyMeansBooted(c.gate, all);
    if Run(c, launch, events).gate.ready {
      G.BootedLater(c.gate, OutputsOf(events), Last(all).ts, t);
    }
    if G.Punctual(c.gate, all) && G.NothingDue(Run(c, launch, events).gate, t) {
      G.ReadyIffBooted(c.gate, all, t);
    }
  }

  // ---- The hub client ----

  function SnapshotOf(t: A.Transition): A.Snapshot {
    A.Snapshot(t.state, t.bytesInWindow, t.status, Some(t.decidedBy))
  }

  function Notified(c: Config, s: State, e: A.Event): seq<HR.Event> {
    var o := A.Next(c.tracker, s.tracker, e);
    if o.emitted.Some? then [HR.Activity(e.ts, SnapshotOf(o.emitted.value))] else []
  }

  function LatchNotice(c: Config, s: State, e: G.Event): seq<HR.Event> {
    if |G.Next(c.gate, s.gate, e).fired| > |s.gate.fired| then [HR.Latch(e.ts)] else []
  }

  function HubEventsOf(c: Config, s: State, e: Event): seq<HR.Event> {
    match e
    case ScreenRead(now, screen) => Notified(c, s, A.ScreenState(now, screen))
    case TrackerTick(now) => Notified(c, s, A.Tick(now))
    case HoldRecheck(now) => Notified(c, s, A.Recheck(now))
    case QuietTimer(now) => LatchNotice(c, s, G.QuietTimer(now))
    case FallbackTimer(now) => LatchNotice(c, s, G.FallbackTimer(now))
    case ChildExited(now, exit) => [HR.Exit(now, exit)]
    case SocketOpened(now) => [HR.Opened(now)]
    case SocketClosing(now) => [HR.LeavesOpen(now)]
    case SocketDropped(now) => [HR.Dropped(now)]
    case Registered(now, token) => [HR.Registered(now, token, s.gate.ready, A.SnapshotOf(c.tracker, s.tracker, now))]
    case ReconnectTimer(now, created) => [HR.ReconnectTimer(now, created)]
    case HeartbeatTimer(now) => [HR.HeartbeatTimer(now)]
    case _ => []
  }

  function HubEvents(c: Config, launch: Launch, events: seq<Event>): seq<HR.Event> {
    if events == [] then [HR.Start(launch.at, launch.created)]
    else HubEvents(c, launch, Init(events)) + HubEventsOf(c, Run(c, launch, Init(events)), Last(events))
  }

  lemma NoticeMatches(c: Config, s: State, e: A.Event)
    ensures var notices := Notified(c, s, e);
            |notices| <= 1 && Track(c, s, e).hub == if notices == [] then s.hub else HR.Next(c.hub, s.hub, notices[0])
  {
    var o := A.Next(c.tracker, s.tracker, e);
    if o.emitted.Some? {
      assert FrameOf(o.emitted.value) == H.FrameOf(SnapshotOf(o.emitted.value));
    }
  }

  lemma SilentEvents(c: Config, s: State, e: A.Event)
    requires !A.Evaluates(e)
    ensures Track(c, s, e).hub == s.hub
  {
  }

  lemma DataSilent(c: Config, s: State, e: Event)
    requires e.Data?
    ensures Next(c, s, e).hub == s.hub
  {
    SilentEvents(c, s, A.Record(e.ts, e.bytes));
  }

  /** At most one hub event, which does to the hub what the supervisor's event does. */
  lemma HubEventMatches(c: Config, s: State, e: Event)
    ensures var hubEvents := HubEventsOf(c, s, e);
            |hubEvents| <= 1
            && Next(c, s, e).hub == if hubEvents == [] then s.hub else HR.Next(c.hub, s.hub, hubEvents[0])
  {
    match e
    case Data(_, _, _) => DataSilent(c, s, e);
    case Resized(now) => SilentEvents(c, s, A.Resize(now));
    case Typed(now) => SilentEvents(c, s, A.Input(now));
    case ScreenRead(now, screen) => NoticeMatches(c, s, A.ScreenState(now, screen));
    case TrackerTick(now) => NoticeMatches(c, s, A.Tick(now));
    case HoldRecheck(now) => NoticeMatches(c, s, A.Recheck(now));
    case _ =>
  }

  lemma HubSnoc(c: H.Config, events: seq<HR.Event>, e: HR.Event)
    ensures HR.Run(c, events + [e]) == HR.Next(c, HR.Run(c, events), e)
    ensures HR.Possible(c, events + [e]) <==> HR.Possible(c, events) && HR.Enabled(c, events, e)
    ensures HR.Reports(events + [e]) == HR.Reports(events) + (if e.Exit? then {e.exit.report} else {})
  {
    assert Init(events + [e]) == events;
  }

  lemma HubEventEnabled(c: Config, hubEvents: seq<HR.Event>, s: State, e: Event)
    requires HR.Run(c.hub, hubEvents) == s.hub && Enabled(s, e)
    requires e.ChildExited? ==> e.exit.report !in HR.Reports(hubEvents)
    ensures forall h | h in HubEventsOf(c, s, e) :: HR.Enabled(c.hub, hubEvents, h)
  {
  }

  lemma HubReports(c: Config, s: State, e: Event)
    ensures forall h | h in HubEventsOf(c, s, e) :: h.Exit? <==> e.ChildExited? && h == HR.Exit(e.ts, e.exit)
    ensures e.ChildExited? ==> HubEventsOf(c, s, e) == [HR.Exit(e.ts, e.exit)]
  {
  }

  predicate HubPart(c: Config, hubEvents: seq<HR.Event>, s: State, reports: set<nat>) {
    && HR.Possible(c.hub, hubEvents) && HR.Run(c.hub, hubEvents) == s.hub && HR.Reports(hubEvents) == reports
  }

  function NewReport(e: Event): set<nat> {
    if e.ChildExited? then {e.exit.report} else {}
  }

  lemma HubOne(c: Config, hubEvents: seq<HR.Event>, s: State, e: Event, h: HR.Event, reports: set<nat>)
    requires HubPart(c, hubEvents, s, reports) && HR.Enabled(c.hub, hubEvents, h)
    requires HR.Next(c.hub, s.hub, h) == Next(c, s, e).hub
    requires NewReport(e) == if h.Exit? then {h.exit.report} else {}
    ensures HubPart(c, hubEvents + [h], Next(c, s, e), reports + NewReport(e))
  {
    HubSnoc(c.hub, hubEvents, h);
  }

  lemma HubStep(c: Config, hubEvents: seq<HR.Event>, s: State, e: Event, reports: set<nat>)
    requires HubPart(c, hubEvents, s, reports) && Enabled(s, e) && NewReport(e) !! reports
    ensures HubPart(c, hubEvents + HubEventsOf(c, s, e), Next(c, s, e), reports + NewReport(e))
  {
    var step := HubEventsOf(c, s, e);
    HubEventMatches(c, s, e);
    HubReports(c, s, e);
    if step == [] {
      NoneMore(hubEvents);
    } else {
      HubEventEnabled(c, hubEvents, s, e);
      HubOne(c, hubEvents, s, e, step[0], reports);
      OneOnly(step);
    }
  }

  lemma OneOnly<E>(step: seq<E>)
    requires |step| == 1
    ensures step == [step[0]]
  {
  }

  lemma HubStarts(c: Config, launch: Launch)
    ensures HubPart(c, [HR.Start(launch.at, launch.created)], Boot(c, launch.at, launch.created), {})
  {
    assert [] + [HR.Start(launch.at, launch.created)] == [HR.Start(launch.at, launch.created)];
    HubSnoc(c.hub, [], HR.Start(launch.at, launch.created));
  }

  /** The hub client of a supervisor run is in a run of its own. */
  lemma {:induction false} HubRun(c: Config, launch: Launch, events: seq<Event>)
    requires Possible(c, launch, events)
    ensures HubPart(c, HubEvents(c, launch, events), Run(c, launch, events), ReportsOf(events))
  {
    if events == [] {
      HubStarts(c, launch);
    } else {
      HubRun(c, launch, Init(events));
      HubStep(c, HubEvents(c, launch, Init(events)), Run(c, launch, Init(events)), Last(events),
              ReportsOf(Init(events)));
    }
  }

  // ---- What the hub is told at registration ----

  /** The activity frame with which a registration on an open socket ends. */
  function RegistrationFrame(c: Config, s: State, now: int): H.Frame {
    H.FrameOf(A.SnapshotOf(c.tracker, s.tracker, now))
  }

  /** A frame says what a notification said. */
  predicate Says(frame: H.Frame, t: A.Transition)
    requires frame.ActivityFrame?
  {
    frame.state == t.state && frame.status == t.status && frame.decidedBy == Some(t.decidedBy)
  }

  lemma RegistrationEnds(c: Config, s: State, now: int, token: Option<string>)
    requires H.IsOpen(s.hub)
    ensures var h := Next(c, s, Registered(now, token)).hub;
            h.journal != [] && Last(h.journal) == H.Handed(s.hub.ws.value.id, RegistrationFrame(c, s, now))
  {
    HR.RegistrationConversation(s.hub, token, s.gate.ready, A.SnapshotOf(c.tracker, s.tracker, now));
  }

  /** In every run: a registration on an open socket ends with a frame carrying the tracker's state, the status of the
      last notification not decided by bytes, and the rung of the last one that was no byte repetition; it says what
      the tracker last said exactly under SnapshotCurrent. */
  lemma RegistrationReports(c: Config, launch: Launch, events: seq<Event>, now: int, token: Option<string>)
    requires Possible(c, launch, events) && H.IsOpen(Run(c, launch, events).hub)
    ensures var s := Run(c, launch, events);
            var h, frame := Next(c, s, Registered(now, token)).hub, RegistrationFrame(c, s, now);
            var log := AR.Run(c.tracker, TrackerEvents(c, launch, events)).log;
            && h.journal != [] && Last(h.journal) == H.Handed(s.hub.ws.value.id, frame)
            && frame.state == s.tracker.state
            && frame.status == AR.NotedStatus(log) && frame.decidedBy == AR.NotedBy(log)
            && (log != [] ==> (Says(frame, Last(log)) <==> AR.SnapshotCurrent(log)))
  {
    RegistrationEnds(c, Run(c, launch, events), now, token);
    TrackerRun(c, launch, events);
    AR.SnapshotExact(c.tracker, TrackerEvents(c, launch, events), now);
  }

  lemma RunSnoc(c: Config, launch: Launch, events: seq<Event>, e: Event)
    ensures Run(c, launch, events + [e]) == Next(c, Run(c, launch, events), e)
    ensures Possible(c, launch, events + [e])
       <==> Possible(c, launch, events) && Now(launch, events) <= e.ts && Enabled(Run(c, launch, events), e)
            && (e.ChildExited? ==> e.exit.report !in ReportsOf(events))
    ensures TrackerEvents(c, launch, events + [e])
         == TrackerEvents(c, launch, events) + TrackerEventsOf(c, Run(c, launch, events), e)
    ensures Now(launch, events + [e]) == e.ts
  {
    assert Init(events + [e]) == events;
  }

  const LAUNCH := Launch(0, true)

  /** The hub answers late: the socket opens, a working screen stops being read, and silence ends activity. */
  function LateAnswer(t: int): seq<Event> {
    [SocketOpened(0), ScreenRead(1, Working), ScreenRead(2, Unknown), TrackerTick(t)]
  }

  /** A screen reading or a tick is always possible, reaches the tracker, and leaves the socket as it is. */
  lemma ReadingStep(c: Config, events: seq<Event>, e: Event)
    requires Possible(c, LAUNCH, events) && H.IsOpen(Run(c, LAUNCH, events).hub)
    requires Now(LAUNCH, events) <= e.ts && (e.ScreenRead? || e.TrackerTick?)
    ensures Possible(c, LAUNCH, events + [e]) && H.IsOpen(Run(c, LAUNCH, events + [e]).hub)
    ensures TrackerEvents(c, LAUNCH, events + [e])
         == TrackerEvents(c, LAUNCH, events) + [if e.TrackerTick? then A.Tick(e.ts) else A.ScreenState(e.ts, e.screen)]
    ensures Now(LAUNCH, events + [e]) == e.ts
  {
    RunSnoc(c, LAUNCH, events, e);
    StaysOpen(c, Run(c, LAUNCH, events), if e.TrackerTick? then A.Tick(e.ts) else A.ScreenState(e.ts, e.screen));
  }

  lemma AnsweredOpen(c: Config)
    ensures var first := [SocketOpened(0)];
            Possible(c, LAUNCH, first) && H.IsOpen(Run(c, LAUNCH, first).hub) && Now(LAUNCH, first) == 0
            && TrackerEvents(c, LAUNCH, first) == [A.Start(0)]
  {
    assert [] + [SocketOpened(0)] == [SocketOpened(0)];
    RunSnoc(c, LAUNCH, [], SocketOpened(0));
  }

  lemma LateAnswerRun(c: Config, t: int)
    requires t >= 2
    ensures Possible(c, LAUNCH, LateAnswer(t))
    ensures TrackerEvents(c, LAUNCH, LateAnswer(t)) == AR.STALE + [A.Tick(t)]
    ensures H.IsOpen(Run(c, LAUNCH, LateAnswer(t)).hub)
  {
    var e1, e2, e3, e4 := SocketOpened(0), ScreenRead(1, Working), ScreenRead(2, Unknown), TrackerTick(t);
    assert [e1] + [e2] == [e1, e2] && [e1, e2] + [e3] == [e1, e2, e3] && [e1, e2, e3] + [e4] == LateAnswer(t);
    AnsweredOpen(c);
    ReadingStep(c, [e1], e2);
    ReadingStep(c, [e1, e2], e3);
    ReadingStep(c, [e1, e2, e3], e4);
  }

  lemma StaysOpen(c: Config, s: State, e: A.Event)
    ensures Track(c, s, e).hub.ws == s.hub.ws
  {
  }

  /** There the registration tells the hub `idle` together with the status `working`. */
  lemma StaleRegistration(c: Config, t: int)
    requires 2 < c.tracker.idleAfterMs <= t
    ensures Possible(c, LAUNCH, LateAnswer(t))
    ensures var s := Run(c, LAUNCH, LateAnswer(t));
            var frame := RegistrationFrame(c, s, t);
            && H.IsOpen(s.hub)
            && frame.state == A.Inactive && frame.status == Some(A.StatusWorking) && frame.decidedBy == Some(A.Bytes)
  {
    LateAnswerRun(c, t);
    TrackerRun(c, LAUNCH, LateAnswer(t));
    AR.StaleStatus(c.tracker, t);
  }
}
