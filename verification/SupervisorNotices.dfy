/** What passes between the parts of the supervisor: titles from the child's output, and the tracker's notifications
    to the hub. */
module SupervisorNotices {
  import opened Options
  import opened Runs
  import opened AgentTitles
  import A = ActivityTracker
  import AR = ActivityRuns
  import T = TitleStateTracker
  import G = ReadinessGate
  import H = HubClient
  import opened Supervisor
  import opened SupervisorRuns
  import opened SupervisorParts

  // ---- Titles ----

  /** The child's output as the titles are read from it. */
  function ChunksOf(events: seq<Event>): seq<string> {
    if events == [] then []
    else ChunksOf(Init(events)) + (if Last(events).Data? then [Last(events).chunk] else [])
  }

  lemma PushesSnoc(agent: AgentKind, chunks: seq<string>, chunk: string)
    ensures T.AfterPushes(agent, T.INITIAL, chunks + [chunk])
         == T.AfterPush(agent, T.AfterPushes(agent, T.INITIAL, chunks), chunk)
  {
    assert (chunks + [chunk])[..|chunks|] == chunks;
  }

  /** The titles of a supervisor run are those of the child's output, all of it, in order. */
  lemma {:induction false} TitlesRun(c: Config, launch: Launch, events: seq<Event>)
    ensures Run(c, launch, events).titles == T.AfterPushes(c.agent, T.INITIAL, ChunksOf(events))
  {
    if events != [] {
      TitlesRun(c, launch, Init(events));
      if Last(events).Data? {
        PushesSnoc(c.agent, ChunksOf(Init(events)), Last(events).chunk);
      } else {
        assert ChunksOf(Init(events)) + [] == ChunksOf(Init(events));
      }
    }
  }

  // ---- Notifications ----

  function NoticeFrame(t: A.Transition): H.Frame {
    H.ActivityFrame(t.state, t.bytesInWindow, t.status, Some(t.decidedBy))
  }

  /** Everything the tracker has notified. */
  function NoticeLog(c: Config, launch: Launch, events: seq<Event>): seq<A.Transition> {
    AR.Run(c.tracker, TrackerEvents(c, launch, events)).log
  }

  /** What an event hands to the hub of a notification: its frame, on the newest socket, if that is open and
      registered. */
  predicate Handed(h: H.State, after: H.State, notice: Option<A.Transition>) {
    after.journal
    == h.journal + (if notice.Some? && h.registered && H.IsOpen(h)
                    then [H.Handed(h.ws.value.id, NoticeFrame(notice.value))] else [])
  }

  lemma TrackHands(c: Config, s: State, e: A.Event)
    ensures Handed(s.hub, Track(c, s, e).hub, A.Next(c.tracker, s.tracker, e).emitted)
  {
  }

  lemma LogOne(c: A.Config, events: seq<A.Event>, e: A.Event)
    ensures AR.Run(c, events + [e]).log == AR.Extend(AR.Run(c, events).log, A.Next(c, AR.Run(c, events).s, e).emitted)
  {
    AR.RunSnoc(c, events, e);
  }

  lemma LogSilent(c: A.Config, events: seq<A.Event>, e: A.Event)
    requires !A.Evaluates(e)
    ensures AR.Run(c, events + [e]).log == AR.Run(c, events).log
  {
    LogOne(c, events, e);
    AR.SilentOtherwise(c, AR.Run(c, events).s, e);
  }

  predicate ReadsTracker(e: Event) {
    e.ScreenRead? || e.TrackerTick? || e.HoldRecheck?
  }

  lemma OtherEventsSilent(c: Config, s: State, events: seq<A.Event>, e: Event)
    requires !ReadsTracker(e)
    ensures AR.Run(c.tracker, events + TrackerEventsOf(c, s, e)).log == AR.Run(c.tracker, events).log
  {
    match e
    case Data(now, bytes, chunk) =>
      var first, second := A.Record(now, bytes), A.TitleState(now, Next(c, s, e).titles.status.state);
      TwoMore(events, first, second);
      LogSilent(c.tracker, events, first);
      LogSilent(c.tracker, events + [first], second);
    case Resized(now) => LogSilent(c.tracker, events, A.Resize(now));
    case Typed(now) => LogSilent(c.tracker, events, A.Input(now));
    case _ => NoneMore(events);
  }

  /** In every run: a screen reading, a tick or a recheck makes at most one notification, which is handed to the hub
      at once with its state, bytes, status and rung while the connection is open and registered; no other event makes
      one. */
  lemma NoticesAreHanded(c: Config, launch: Launch, events: seq<Event>, e: Event)
    requires Possible(c, launch, events + [e])
    ensures var s, t := Run(c, launch, events), Run(c, launch, events + [e]);
            var log, after := NoticeLog(c, launch, events), NoticeLog(c, launch, events + [e]);
            if ReadsTracker(e) then
              || (after == log && Handed(s.hub, t.hub, None))
              || (|after| == |log| + 1 && log == after[..|log|] && Handed(s.hub, t.hub, Some(after[|log|])))
            else after == log
  {
    RunSnoc(c, launch, events, e);
    TrackerRun(c, launch, events);
    var s, before := Run(c, launch, events), TrackerEvents(c, launch, events);
    match e
    case ScreenRead(now, screen) => NoticeOne(c, s, before, A.ScreenState(now, screen));
    case TrackerTick(now) => NoticeOne(c, s, before, A.Tick(now));
    case HoldRecheck(now) => NoticeOne(c, s, before, A.Recheck(now));
    case _ => OtherEventsSilent(c, s, before, e);
  }

  lemma NoticeOne(c: Config, s: State, events: seq<A.Event>, e: A.Event)
    requires AR.Run(c.tracker, events).s == s.tracker
    ensures var log, after := AR.Run(c.tracker, events).log, AR.Run(c.tracker, events + [e]).log;
            || (after == log && Handed(s.hub, Track(c, s, e).hub, None))
            || (|after| == |log| + 1 && log == after[..|log|] && Handed(s.hub, Track(c, s, e).hub, Some(after[|log|])))
  {
    TrackHands(c, s, e);
    LogOne(c.tracker, events, e);
  }
}
