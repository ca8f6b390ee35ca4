/** Everything the hub client hands to its sockets, told by the events of the run. */
module HubFrames {
  import opened Options
  import opened Runs
  import A = ActivityTracker
  import opened HubClient
  import opened HubRuns

  // ---- The connection, told by the events ----

  predicate ShutDown(events: seq<Event>) {
    events != [] && (Last(events).Shutdown? || ShutDown(Init(events)))
  }

  /** How many sockets have been created. */
  function Created(events: seq<Event>): nat {
    if events == [] then 0
    else Created(Init(events)) +
         (if (Last(events).Start? || Last(events).ReconnectTimer?) && Last(events).created && !ShutDown(Init(events))
          then 1 else 0)
  }

  /** The number of the newest socket. */
  function Newest(events: seq<Event>): nat {
    if Created(events) == 0 then 0 else Created(events) - 1
  }

  /** A socket has opened and has since neither been closed from either side nor dropped. */
  predicate OpenAt(events: seq<Event>) {
    events != []
    && (Last(events).Opened?
        || (OpenAt(Init(events)) && !Last(events).LeavesOpen? && !Last(events).Dropped? && !Last(events).Shutdown?))
  }

  /** The hub has answered a register, and no socket has been dropped since. */
  predicate RegisteredAt(events: seq<Event>) {
    events != [] && (Last(events).Registered? || (RegisteredAt(Init(events)) && !Last(events).Dropped?))
  }

  /** The last exit reported while the connection was not open and registered, until the next registration. */
  function PendingAt(events: seq<Event>): Option<ChildExit> {
    if events == [] || Last(events).Registered? then None
    else if Last(events).Exit? && !(OpenAt(Init(events)) && RegisteredAt(Init(events))) then Some(Last(events).exit)
    else PendingAt(Init(events))
  }

  predicate Kept(s: State, events: seq<Event>) {
    && s.closed == ShutDown(events) && s.sockets == Created(events) && s.registered == RegisteredAt(events)
    && s.pendingChildExit == PendingAt(events)
    && (IsOpen(s) <==> OpenAt(events))
    && (s.ws.Some? ==> s.ws.value.id + 1 == s.sockets)
  }

  lemma KeptStep(c: Config, events: seq<Event>, e: Event)
    requires Kept(Run(c, events), events) && Enabled(c, events, e) && Lifeline(Run(c, events), Started(events))
    ensures Kept(Next(c, Run(c, events), e), events + [e])
  {
    assert Init(events + [e]) == events;
    match e
    case Registered(_, token, ready, snapshot) => RegisteredFields(Run(c, events), token, ready, snapshot);
    case _ =>
  }

  lemma {:induction false} AlwaysKept(c: Config, events: seq<Event>)
    requires Possible(c, events)
    ensures Kept(Run(c, events), events)
  {
    if events != [] {
      AlwaysKept(c, Init(events));
      ExactlyOneLifeline(c, Init(events));
      KeptStep(c, Init(events), Last(events));
      assert Init(events) + [Last(events)] == events;
    }
  }

  // ---- The frames ----

  function ReportFrame(r: A.Snapshot): Frame {
    ActivityFrame(r.state, r.bytesInWindow, r.status, r.decidedBy)
  }

  /** The answer to a registration on an open socket. */
  function Answer(k: nat, token: Option<string>, pending: Option<ChildExit>, ready: bool, r: A.Snapshot): seq<Entry> {
    (if token.Some? then [Handed(k, RegisterAck(token.value))] else [])
    + (if pending.Some? then [Handed(k, ChildExitFrame(pending.value))] else [])
    + (if ready then [Handed(k, ReadyFrame)] else [])
    + [Handed(k, ReportFrame(r))]
  }

  /** What an event adds to the journal: frames go to the newest socket while it is open, and reports only while it is
      registered. */
  function Added(c: Config, events: seq<Event>, e: Event): seq<Entry> {
    var k, live := Newest(events), OpenAt(events) && RegisteredAt(events);
    match e
    case Opened(_) =>
      [Handed(k, Register(if LatestToken(events).Some? then Session(LatestToken(events).value)
                          else Bootstrap(c.bootstrapToken)))]
    case Registered(_, token, ready, r) =>
      [RegisteredSeen(k)] + (if OpenAt(events) then Answer(k, token, PendingAt(events), ready, r) else [])
    case HeartbeatTimer(_) => if OpenAt(events) then [Handed(k, Heartbeat)] else []
    case Activity(_, r) => if live then [Handed(k, ReportFrame(r))] else []
    case Latch(_) => if live then [Handed(k, ReadyFrame)] else []
    case Exit(_, exit) => if live then [Handed(k, ChildExitFrame(exit))] else []
    case _ => []
  }

  lemma RegisteredAdds(c: Config, s: State, events: seq<Event>, e: Event)
    requires Kept(s, events) && e.Registered? && s.ws.Some?
    ensures OnRegistered(s, e.token, e.ready, e.snapshot).journal == s.journal + Added(c, events, e)
  {
    var k := s.ws.value.id;
    if IsOpen(s) {
      RegistrationConversation(s, e.token, e.ready, e.snapshot);
      var ack := Handed(k, RegisterAck(if e.token.Some? then e.token.value else ""));
      var exits := if s.pendingChildExit.Some? then [Handed(k, ChildExitFrame(s.pendingChildExit.value))] else [];
      Regroup(s.journal, [RegisteredSeen(k)], Maybe(e.token.Some?, ack), exits, Maybe(e.ready, Handed(k, ReadyFrame)),
              [Handed(k, ReportFrame(e.snapshot))]);
    } else {
      assert [RegisteredSeen(k)] + [] == [RegisteredSeen(k)];
    }
  }

  lemma Regroup(j: seq<Entry>, a: seq<Entry>, b: seq<Entry>, d: seq<Entry>, f: seq<Entry>, g: seq<Entry>)
    ensures j + a + b + d + f + g == j + (a + (b + d + f + g))
  {
  }

  lemma OpenedAdds(c: Config, s: State, events: seq<Event>, e: Event)
    requires Kept(s, events) && e.Opened? && s.ws.Some? && s.sessionToken == LatestToken(events)
    ensures OnOpen(c, s).journal == s.journal + Added(c, events, e)
  {
  }

  /** A frame reaches the newest socket exactly while it is open. */
  lemma SendAdds(s: State, events: seq<Event>, frame: Frame)
    requires Kept(s, events)
    ensures SafeSend(s, frame).journal == s.journal + (if OpenAt(events) then [Handed(Newest(events), frame)] else [])
  {
  }

  lemma ReportAdds(c: Config, s: State, events: seq<Event>, e: Event)
    requires Kept(s, events) && (e.HeartbeatTimer? || e.Activity? || e.Latch? || e.Exit?)
    ensures Next(c, s, e).journal == s.journal + Added(c, events, e)
  {
    match e
    case HeartbeatTimer(_) => SendAdds(s, events, Heartbeat);
    case Activity(_, r) => SendAdds(s, events, FrameOf(r));
    case Latch(_) => SendAdds(s, events, ReadyFrame);
    case Exit(_, exit) => SendAdds(s, events, ChildExitFrame(exit));
  }

  lemma OthersAddNothing(c: Config, s: State, e: Event)
    requires e.Start? || e.LeavesOpen? || e.Dropped? || e.ReconnectTimer? || e.Shutdown?
    ensures Next(c, s, e).journal == s.journal
  {
  }

  /** In every run every event adds to the journal exactly what the events before it tell. */
  lemma FramesExact(c: Config, events: seq<Event>, e: Event)
    requires Possible(c, events) && Enabled(c, events, e)
    ensures Run(c, events + [e]).journal == Run(c, events).journal + Added(c, events, e)
  {
    assert Init(events + [e]) == events;
    AlwaysKept(c, events);
    TokenKept(c, events);
    var s := Run(c, events);
    if e.Opened? {
      OpenedAdds(c, s, events, e);
    } else if e.Registered? {
      RegisteredAdds(c, s, events, e);
    } else if e.HeartbeatTimer? || e.Activity? || e.Latch? || e.Exit? {
      ReportAdds(c, s, events, e);
    } else {
      OthersAddNothing(c, s, e);
    }
  }
}
