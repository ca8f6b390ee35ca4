/** What holds in every run of the supervisor as wired. */
module SupervisorRuns {
  import opened Options
  import opened Runs
  import opened AgentTitles
  import A = ActivityTracker
  import G = ReadinessGate
  import H = HubClient
  import opened Supervisor

  /** How the process was started. */
  datatype Launch = Launch(at: int, created: bool)

  function Run(c: Config, launch: Launch, events: seq<Event>): State {
    if events == [] then Boot(c, launch.at, launch.created) else Next(c, Run(c, launch, Init(events)), Last(events))
  }

  function ReportsOf(events: seq<Event>): set<nat> {
    if events == [] then {}
    else ReportsOf(Init(events)) + (if Last(events).ChildExited? then {Last(events).exit.report} else {})
  }

  function Now(launch: Launch, events: seq<Event>): int {
    if events == [] then launch.at else Last(events).ts
  }

  /** A socket opens once, speaks only after that and is dropped once; timers fire only when armed and due. */
  predicate Enabled(s: State, e: Event) {
    match e
    case HoldRecheck(now) => s.tracker.idleHoldTimer.Some? && s.tracker.idleHoldTimer.value <= now
    case QuietTimer(now) => s.gate.quietTimer.Some? && s.gate.quietTimer.value <= now
    case FallbackTimer(now) => s.gate.fallbackTimer.Some? && s.gate.fallbackTimer.value <= now
    case SocketOpened(_) => s.hub.ws.Some? && s.hub.ws.value.phase == H.Connecting
    case SocketClosing(_) => s.hub.ws.Some?
    case SocketDropped(_) => s.hub.ws.Some?
    case Registered(_, _) => s.hub.ws.Some? && s.hub.ws.value.phase != H.Connecting
    case ReconnectTimer(now, _) => s.hub.reconnectTimer.Some? && s.hub.reconnectTimer.value <= now
    case HeartbeatTimer(_) => s.hub.heartbeat
    case _ => true
  }

  /** The clock never goes back, and every child exit reported is a new one. */
  predicate Possible(c: Config, launch: Launch, events: seq<Event>) {
    if events == [] then launch.at >= 0 else
      && Possible(c, launch, Init(events))
      && Now(launch, Init(events)) <= Last(events).ts
      && Enabled(Run(c, launch, Init(events)), Last(events))
      && (Last(events).ChildExited? ==> Last(events).exit.report !in ReportsOf(Init(events)))
  }

  /** The hub answers each connection's register with at most one `registered`. */
  predicate AnsweredOnce(c: Config, launch: Launch, events: seq<Event>) {
    events == []
    || (AnsweredOnce(c, launch, Init(events))
        && (Last(events).Registered? ==> !Run(c, launch, Init(events)).hub.registered))
  }

  // ---- The socket ----

  /** The live socket is the newest one, and registration is bound to a socket that has opened. */
  predicate SocketInvariant(h: H.State) {
    && (h.ws.Some? ==> h.ws.value.id + 1 == h.sockets && h.reconnectTimer.None?)
    && (h.registered ==> h.ws.Some? && h.ws.value.phase != H.Connecting)
    && (forall i | 0 <= i < |h.journal| :: h.journal[i].socket < h.sockets)
  }

  lemma SafeSendSocket(h: H.State, frame: H.Frame)
    requires SocketInvariant(h)
    ensures SocketInvariant(H.SafeSend(h, frame))
  {
  }

  lemma RegisteredSocket(h: H.State, token: Option<string>, ready: bool, snapshot: A.Snapshot)
    requires SocketInvariant(h) && h.ws.Some? && h.ws.value.phase != H.Connecting
    ensures SocketInvariant(H.OnRegistered(h, token, ready, snapshot))
  {
    var a := H.NoteRegistered(h);
    if token.Some? {
      SafeSendSocket(a.(sessionToken := token), H.RegisterAck(token.value));
    }
    var b := H.TakeToken(a, token);
    if b.pendingChildExit.Some? {
      SafeSendSocket(b, H.ChildExitFrame(b.pendingChildExit.value));
    }
    var d := H.FlushChildExit(b);
    SafeSendSocket(d, H.ReadyFrame);
    SafeSendSocket(if ready then H.SendReady(d) else d, H.FrameOf(snapshot));
  }

  lemma SocketStep(c: Config, s: State, e: Event)
    requires SocketInvariant(s.hub) && Enabled(s, e)
    ensures SocketInvariant(Next(c, s, e).hub)
  {
    match e
    case Registered(now, token) =>
      RegisteredSocket(s.hub, token, s.gate.ready, A.SnapshotOf(c.tracker, s.tracker, now));
    case Data(now, bytes, chunk) => DataSocket(c, s, now, bytes, chunk);
    case Resized(now) => TrackSocket(c, s, A.Resize(now));
    case Typed(now) => TrackSocket(c, s, A.Input(now));
    case ScreenRead(now, screen) => TrackSocket(c, s, A.ScreenState(now, screen));
    case TrackerTick(now) => TrackSocket(c, s, A.Tick(now));
    case HoldRecheck(now) => TrackSocket(c, s, A.Recheck(now));
    case QuietTimer(now) => SettleSocket(c, s, G.QuietTimer(now));
    case FallbackTimer(now) => SettleSocket(c, s, G.FallbackTimer(now));
    case _ =>
  }

  lemma TrackSocket(c: Config, s: State, e: A.Event)
    requires SocketInvariant(s.hub)
    ensures SocketInvariant(Track(c, s, e).hub)
  {
  }

  lemma SettleSocket(c: Config, s: State, e: G.Event)
    requires SocketInvariant(s.hub)
    ensures SocketInvariant(Settle(c, s, e).hub)
  {
  }

  lemma DataSocket(c: Config, s: State, now: int, bytes: nat, chunk: string)
    requires SocketInvariant(s.hub)
    ensures SocketInvariant(OnData(c, s, now, bytes, chunk).hub)
  {
    var recorded := Track(c, s, A.Record(now, bytes));
    TrackSocket(c, s, A.Record(now, bytes));
    var titled := recorded.(titles := OnData(c, s, now, bytes, chunk).titles);
    var e := A.TitleState(now, titled.titles.status.state);
    TrackSocket(c, titled, e);
    SettleSocket(c, Track(c, titled, e), G.Output(now, bytes));
  }

  lemma {:induction false} SocketAlways(c: Config, launch: Launch, events: seq<Event>)
    requires Possible(c, launch, events)
    ensures SocketInvariant(Run(c, launch, events).hub)
  {
    if events != [] {
      SocketAlways(c, launch, Init(events));
      SocketStep(c, Run(c, launch, Init(events)), Last(events));
    }
  }

  // ---- The hub's picture of the agent ----

  predicate IsActivity(entry: H.Entry, socket: nat) {
    entry.Handed? && entry.socket == socket && entry.frame.ActivityFrame?
  }

  /** The state in the last activity frame handed to a socket. */
  function LastReported(journal: seq<H.Entry>, socket: nat): Option<A.Activity> {
    if journal == [] then None
    else if IsActivity(journal[|journal| - 1], socket) then Some(journal[|journal| - 1].frame.state)
    else LastReported(journal[..|journal| - 1], socket)
  }

  lemma LastReportedSnoc(journal: seq<H.Entry>, entry: H.Entry, socket: nat)
    ensures LastReported(journal + [entry], socket)
         == if IsActivity(entry, socket) then Some(entry.frame.state) else LastReported(journal, socket)
  {
    assert (journal + [entry])[..|journal|] == journal;
  }

  /** While a connection is registered and open, what the hub was last told is the state of the tracker. */
  predicate Coherent(h: H.State, state: A.Activity) {
    h.registered && H.IsOpen(h) ==> LastReported(h.journal, h.ws.value.id) == Some(state)
  }

  lemma SafeSendReported(h: H.State, frame: H.Frame)
    requires H.IsOpen(h)
    ensures LastReported(H.SafeSend(h, frame).journal, h.ws.value.id)
         == if frame.ActivityFrame? then Some(frame.state) else LastReported(h.journal, h.ws.value.id)
  {
    LastReportedSnoc(h.journal, H.Handed(h.ws.value.id, frame), h.ws.value.id);
  }

  lemma SafeSendCoherent(h: H.State, frame: H.Frame, state: A.Activity)
    requires Coherent(h, state) && !frame.ActivityFrame?
    ensures Coherent(H.SafeSend(h, frame), state)
  {
    if H.IsOpen(h) {
      SafeSendReported(h, frame);
    }
  }

  lemma ReportCoherent(h: H.State, frame: H.Frame)
    requires frame.ActivityFrame?
    ensures Coherent(H.SendActivity(h, frame), frame.state)
  {
    if h.registered && H.IsOpen(h) {
      SafeSendReported(h, frame);
    }
  }

  /** A notification carries the state it leaves, and without one the state stays. */
  lemma NotifiesEveryChange(c: A.Config, s: A.State, e: A.Event)
    ensures var o := A.Next(c, s, e);
            if o.emitted.Some? then o.emitted.value.state == o.state.state else o.state.state == s.state
  {
    if A.Evaluates(e) {
      var t := A.Prepared(c, s, e);
      LadderNotifies(c, t, e.ts, A.WindowSum(c, t.samples, e.ts));
    }
  }

  lemma ApplyNotifies(s: A.State, now: int, sum: nat, p: PaneState, rung: A.DecidedBy)
    ensures var o := A.Apply(s, now, sum, p, rung);
            if o.emitted.Some? then o.emitted.value.state == o.state.state else o.state.state == s.state
  {
  }

  lemma LadderNotifies(c: A.Config, s: A.State, now: int, sum: nat)
    ensures var o := A.RunLadder(c, s, now, sum);
            if o.emitted.Some? then o.emitted.value.state == o.state.state else o.state.state == s.state
  {
    match A.Decide(s)
    case ByScreen(p) => ApplyNotifies(s, now, sum, p, A.Screen);
    case ByTitle(p) => ApplyNotifies(if A.Engaged(p) then s.(titleAuthoritative := true) else s, now, sum, p, A.Title);
    case ByBytes =>
  }

  lemma TrackCoherent(c: Config, s: State, e: A.Event)
    requires Coherent(s.hub, s.tracker.state)
    ensures Coherent(Track(c, s, e).hub, Track(c, s, e).tracker.state)
  {
    var o := A.Next(c.tracker, s.tracker, e);
    NotifiesEveryChange(c.tracker, s.tracker, e);
    if o.emitted.Some? {
      ReportCoherent(s.hub, FrameOf(o.emitted.value));
    }
  }

  lemma SettleCoherent(c: Config, s: State, e: G.Event)
    requires Coherent(s.hub, s.tracker.state)
    ensures Coherent(Settle(c, s, e).hub, Settle(c, s, e).tracker.state)
  {
    SafeSendCoherent(s.hub, H.ReadyFrame, s.tracker.state);
  }

  lemma DataCoherent(c: Config, s: State, now: int, bytes: nat, chunk: string)
    requires Coherent(s.hub, s.tracker.state)
    ensures var t := OnData(c, s, now, bytes, chunk); Coherent(t.hub, t.tracker.state)
  {
    var recorded := Track(c, s, A.Record(now, bytes));
    TrackCoherent(c, s, A.Record(now, bytes));
    var titled := recorded.(titles := OnData(c, s, now, bytes, chunk).titles);
    var e := A.TitleState(now, titled.titles.status.state);
    TrackCoherent(c, titled, e);
    SettleCoherent(c, Track(c, titled, e), G.Output(now, bytes));
  }

  lemma CoherenceStep(c: Config, s: State, e: Event)
    requires Coherent(s.hub, s.tracker.state) && SocketInvariant(s.hub) && Enabled(s, e)
    ensures var t := Next(c, s, e); Coherent(t.hub, t.tracker.state)
  {
    match e
    case Data(now, bytes, chunk) => DataCoherent(c, s, now, bytes, chunk);
    case Resized(now) => TrackCoherent(c, s, A.Resize(now));
    case Typed(now) => TrackCoherent(c, s, A.Input(now));
    case ScreenRead(now, screen) => TrackCoherent(c, s, A.ScreenState(now, screen));
    case TrackerTick(now) => TrackCoherent(c, s, A.Tick(now));
    case HoldRecheck(now) => TrackCoherent(c, s, A.Recheck(now));
    case QuietTimer(now) => SettleCoherent(c, s, G.QuietTimer(now));
    case FallbackTimer(now) => SettleCoherent(c, s, G.FallbackTimer(now));
    case ChildExited(_, exit) => SafeSendCoherent(s.hub, H.ChildExitFrame(exit), s.tracker.state);
    case Registered(now, token) => RegisteredCoherent(c, s, now, token);
    case HeartbeatTimer(_) => SafeSendCoherent(s.hub, H.Heartbeat, s.tracker.state);
    case _ =>
  }

  lemma RegisteredCoherent(c: Config, s: State, now: int, token: Option<string>)
    ensures Coherent(Next(c, s, Registered(now, token)).hub, s.tracker.state)
  {
    var snapshot := A.SnapshotOf(c.tracker, s.tracker, now);
    var d := H.FlushChildExit(H.TakeToken(H.NoteRegistered(s.hub), token));
    ReportCoherent(if s.gate.ready then H.SendReady(d) else d, H.FrameOf(snapshot));
  }

  /** In every run, whatever connections are lost and made again: while a connection is registered and its socket open,
      the last activity frame handed to it carries the tracker's state. */
  lemma {:induction false} HubKnowsTheState(c: Config, launch: Launch, events: seq<Event>)
    requires Possible(c, launch, events)
    ensures var s := Run(c, launch, events); Coherent(s.hub, s.tracker.state)
  {
    if events != [] {
      HubKnowsTheState(c, launch, Init(events));
      SocketAlways(c, launch, Init(events));
      CoherenceStep(c, Run(c, launch, Init(events)), Last(events));
    }
  }

  // ---- Ready notices ----

  predicate IsReady(entry: H.Entry, socket: nat) {
    entry == H.Handed(socket, H.ReadyFrame)
  }

  function ReadyCount(journal: seq<H.Entry>, socket: nat): nat {
    if journal == [] then 0
    else ReadyCount(journal[..|journal| - 1], socket) + (if IsReady(journal[|journal| - 1], socket) then 1 else 0)
  }

  lemma ReadyCountSnoc(journal: seq<H.Entry>, entry: H.Entry, socket: nat)
    ensures ReadyCount(journal + [entry], socket)
            == ReadyCount(journal, socket) + (if IsReady(entry, socket) then 1 else 0)
  {
    assert (journal + [entry])[..|journal|] == journal;
  }

  lemma {:induction false} NoReadyYet(journal: seq<H.Entry>, socket: nat)
    requires forall i | 0 <= i < |journal| :: journal[i].socket < socket
    ensures ReadyCount(journal, socket) == 0
  {
    if journal != [] {
      NoReadyYet(journal[..|journal| - 1], socket);
    }
  }

  /** The gate's listener waits exactly until the latch. */
  predicate ListenerInvariant(g: G.State) {
    g.listeners == (if g.ready then [] else [HUB_LISTENER])
    && (g.ready ==> g.quietTimer.None? && g.fallbackTimer.None?)
  }

  /** One ready frame on the open registered connection once the gate has latched, none before. */
  predicate ReadyOnce(h: H.State, ready: bool) {
    h.ws.Some? && h.ws.value.phase != H.Closing ==>
      ReadyCount(h.journal, h.ws.value.id) == if h.registered && ready then 1 else 0
  }

  lemma SafeSendReadyCount(h: H.State, frame: H.Frame, socket: nat)
    ensures ReadyCount(H.SafeSend(h, frame).journal, socket)
         == ReadyCount(h.journal, socket)
            + (if H.IsOpen(h) && frame.ReadyFrame? && h.ws.value.id == socket then 1 else 0)
  {
    if H.IsOpen(h) {
      ReadyCountSnoc(h.journal, H.Handed(h.ws.value.id, frame), socket);
    }
  }

  lemma RegisteredReadyCount(h: H.State, token: Option<string>, ready: bool, snapshot: A.Snapshot)
    requires H.IsOpen(h)
    ensures var k := h.ws.value.id;
            ReadyCount(H.OnRegistered(h, token, ready, snapshot).journal, k)
            == ReadyCount(h.journal, k) + (if ready then 1 else 0)
  {
    var k := h.ws.value.id;
    var a := H.NoteRegistered(h);
    ReadyCountSnoc(h.journal, H.RegisteredSeen(k), k);
    if token.Some? {
      SafeSendReadyCount(a.(sessionToken := token), H.RegisterAck(token.value), k);
    }
    var b := H.TakeToken(a, token);
    if b.pendingChildExit.Some? {
      SafeSendReadyCount(b, H.ChildExitFrame(b.pendingChildExit.value), k);
    }
    RegisteredTailReady(H.FlushChildExit(b), ready, snapshot);
  }

  lemma RegisteredTailReady(d: H.State, ready: bool, snapshot: A.Snapshot)
    requires H.IsOpen(d) && d.registered
    ensures var t := H.SendActivity(if ready then H.SendReady(d) else d, H.FrameOf(snapshot));
            ReadyCount(t.journal, d.ws.value.id) == ReadyCount(d.journal, d.ws.value.id) + (if ready then 1 else 0)
  {
    SafeSendReadyCount(d, H.ReadyFrame, d.ws.value.id);
    SafeSendReadyCount(if ready then H.SendReady(d) else d, H.FrameOf(snapshot), d.ws.value.id);
  }

  lemma TrackReady(c: Config, s: State, e: A.Event)
    requires ReadyOnce(s.hub, s.gate.ready)
    ensures ReadyOnce(Track(c, s, e).hub, s.gate.ready)
  {
    var o := A.Next(c.tracker, s.tracker, e);
    if o.emitted.Some? && s.hub.ws.Some? {
      SafeSendReadyCount(s.hub, FrameOf(o.emitted.value), s.hub.ws.value.id);
    }
  }

  lemma ListenerStep(c: G.Config, g: G.State, e: G.Event)
    requires ListenerInvariant(g)
             && (e.Output? || (e.QuietTimer? && g.quietTimer.Some?) || (e.FallbackTimer? && g.fallbackTimer.Some?))
    ensures ListenerInvariant(G.Next(c, g, e))
    ensures |G.Next(c, g, e).fired| > |g.fired| <==> !g.ready && G.Next(c, g, e).ready
    ensures g.ready ==> G.Next(c, g, e).ready
  {
  }

  lemma SettleReady(c: Config, s: State, e: G.Event)
    requires ReadyOnce(s.hub, s.gate.ready) && ListenerInvariant(s.gate)
    requires SocketInvariant(s.hub)
    requires e.Output? || (e.QuietTimer? && s.gate.quietTimer.Some?) || (e.FallbackTimer? && s.gate.fallbackTimer.Some?)
    ensures var t := Settle(c, s, e); ReadyOnce(t.hub, t.gate.ready) && ListenerInvariant(t.gate)
  {
    ListenerStep(c.gate, s.gate, e);
    if s.hub.ws.Some? {
      SafeSendReadyCount(s.hub, H.ReadyFrame, s.hub.ws.value.id);
    }
  }

  lemma DataReady(c: Config, s: State, now: int, bytes: nat, chunk: string)
    requires ReadyOnce(s.hub, s.gate.ready) && ListenerInvariant(s.gate) && SocketInvariant(s.hub)
    ensures var t := OnData(c, s, now, bytes, chunk); ReadyOnce(t.hub, t.gate.ready) && ListenerInvariant(t.gate)
  {
    var recorded := Track(c, s, A.Record(now, bytes));
    var titled := recorded.(titles := OnData(c, s, now, bytes, chunk).titles);
    var e := A.TitleState(now, titled.titles.status.state);
    assert recorded.hub == s.hub && Track(c, titled, e).hub == s.hub;
    SettleReady(c, Track(c, titled, e), G.Output(now, bytes));
  }

  lemma SendOtherReady(h: H.State, frame: H.Frame, ready: bool)
    requires ReadyOnce(h, ready) && !frame.ReadyFrame?
    ensures ReadyOnce(H.SafeSend(h, frame), ready)
  {
    if h.ws.Some? {
      SafeSendReadyCount(h, frame, h.ws.value.id);
    }
  }

  lemma ConnectReady(c: H.Config, h: H.State, now: int, created: bool, ready: bool)
    requires ReadyOnce(h, ready) && SocketInvariant(h) && h.ws.None?
    ensures ReadyOnce(H.Connect(c, h, now, created), ready)
  {
    NoReadyYet(h.journal, h.sockets);
  }

  lemma ReadyStep(c: Config, s: State, e: Event)
    requires ReadyOnce(s.hub, s.gate.ready) && ListenerInvariant(s.gate) && SocketInvariant(s.hub) && Enabled(s, e)
    requires e.Registered? ==> !s.hub.registered
    ensures var t := Next(c, s, e); ReadyOnce(t.hub, t.gate.ready) && ListenerInvariant(t.gate)
  {
    match e
    case Data(now, bytes, chunk) => DataReady(c, s, now, bytes, chunk);
    case Resized(now) => TrackReady(c, s, A.Resize(now));
    case Typed(now) => TrackReady(c, s, A.Input(now));
    case ScreenRead(now, screen) => TrackReady(c, s, A.ScreenState(now, screen));
    case TrackerTick(now) => TrackReady(c, s, A.Tick(now));
    case HoldRecheck(now) => TrackReady(c, s, A.Recheck(now));
    case QuietTimer(now) => SettleReady(c, s, G.QuietTimer(now));
    case FallbackTimer(now) => SettleReady(c, s, G.FallbackTimer(now));
    case ChildExited(_, exit) => SendOtherReady(s.hub, H.ChildExitFrame(exit), s.gate.ready);
    case SocketOpened(_) =>
      SendOtherReady(H.SetPhase(s.hub, H.Open), H.Register(H.CredentialOf(c.hub, s.hub)), s.gate.ready);
    case Registered(now, token) =>
      if H.IsOpen(s.hub) {
        RegisteredReadyCount(s.hub, token, s.gate.ready, A.SnapshotOf(c.tracker, s.tracker, now));
      }
    case ReconnectTimer(now, created) =>
      ConnectReady(c.hub, s.hub.(reconnectTimer := None), now, created, s.gate.ready);
    case HeartbeatTimer(_) => SendOtherReady(s.hub, H.Heartbeat, s.gate.ready);
    case _ =>
  }

  /** In every run: as long as a registered connection is open it has carried exactly one ready frame if the gate has
      latched, before or since, and none if it has not. */
  lemma {:induction false} ReadyExactlyOnce(c: Config, launch: Launch, events: seq<Event>)
    requires Possible(c, launch, events) && AnsweredOnce(c, launch, events)
    ensures var s := Run(c, launch, events); ReadyOnce(s.hub, s.gate.ready) && ListenerInvariant(s.gate)
  {
    if events != [] {
      ReadyExactlyOnce(c, launch, Init(events));
      SocketAlways(c, launch, Init(events));
      ReadyStep(c, Run(c, launch, Init(events)), Last(events));
    }
  }

  // ---- Ready notices on every connection of a run ----

  /** Socket k is registered and open, and the gate has latched. */
  predicate LatchedLive(s: State, k: nat) {
    s.hub.registered && H.IsOpen(s.hub) && s.hub.ws.value.id == k && s.gate.ready
  }

  /** At some moment of the run, up to now, the gate had latched while socket k was registered and open. */
  predicate EverLatchedLive(c: Config, launch: Launch, events: seq<Event>, k: nat) {
    LatchedLive(Run(c, launch, events), k) || (events != [] && EverLatchedLive(c, launch, Init(events), k))
  }

  predicate OpenAs(h: H.State, k: nat) {
    H.IsOpen(h) && h.ws.value.id == k
  }

  /** A frame is handed only to the open socket, and leaves it open. */
  lemma OtherSendReady(h: H.State, frame: H.Frame, k: nat)
    requires !OpenAs(h, k)
    ensures ReadyCount(H.SafeSend(h, frame).journal, k) == ReadyCount(h.journal, k) && !OpenAs(H.SafeSend(h, frame), k)
  {
    SafeSendReadyCount(h, frame, k);
  }

  lemma OtherRegistered(h: H.State, token: Option<string>, ready: bool, snapshot: A.Snapshot, k: nat)
    requires !OpenAs(h, k)
    ensures ReadyCount(H.OnRegistered(h, token, ready, snapshot).journal, k) == ReadyCount(h.journal, k)
  {
    var a := H.NoteRegistered(h);
    if h.ws.Some? {
      ReadyCountSnoc(h.journal, H.RegisteredSeen(h.ws.value.id), k);
    }
    if token.Some? {
      OtherSendReady(a.(sessionToken := token), H.RegisterAck(token.value), k);
    }
    var b := H.TakeToken(a, token);
    if b.pendingChildExit.Some? {
      OtherSendReady(b, H.ChildExitFrame(b.pendingChildExit.value), k);
    }
    var d := H.FlushChildExit(b);
    OtherSendReady(d, H.ReadyFrame, k);
    OtherSendReady(if ready then H.SendReady(d) else d, H.FrameOf(snapshot), k);
  }

  lemma TrackOther(c: Config, s: State, e: A.Event, k: nat)
    requires !OpenAs(s.hub, k)
    ensures ReadyCount(Track(c, s, e).hub.journal, k) == ReadyCount(s.hub.journal, k) && !OpenAs(Track(c, s, e).hub, k)
  {
    var o := A.Next(c.tracker, s.tracker, e);
    if o.emitted.Some? {
      OtherSendReady(s.hub, FrameOf(o.emitted.value), k);
    }
  }

  lemma SettleOther(c: Config, s: State, e: G.Event, k: nat)
    requires !OpenAs(s.hub, k)
    ensures ReadyCount(Settle(c, s, e).hub.journal, k) == ReadyCount(s.hub.journal, k)
  {
    OtherSendReady(s.hub, H.ReadyFrame, k);
  }

  lemma DataOther(c: Config, s: State, now: int, bytes: nat, chunk: string, k: nat)
    requires !OpenAs(s.hub, k)
    ensures ReadyCount(OnData(c, s, now, bytes, chunk).hub.journal, k) == ReadyCount(s.hub.journal, k)
  {
    var recorded := Track(c, s, A.Record(now, bytes));
    TrackOther(c, s, A.Record(now, bytes), k);
    var titled := recorded.(titles := OnData(c, s, now, bytes, chunk).titles);
    var e := A.TitleState(now, titled.titles.status.state);
    TrackOther(c, titled, e, k);
    SettleOther(c, Track(c, titled, e), G.Output(now, bytes), k);
  }

  /** What an event hands to a socket that is not open before it is no ready frame. */
  lemma OtherStep(c: Config, s: State, e: Event, k: nat)
    requires !OpenAs(s.hub, k)
    ensures ReadyCount(Next(c, s, e).hub.journal, k) == ReadyCount(s.hub.journal, k)
  {
    match e
    case Data(now, bytes, chunk) => DataOther(c, s, now, bytes, chunk, k);
    case Resized(now) => TrackOther(c, s, A.Resize(now), k);
    case Typed(now) => TrackOther(c, s, A.Input(now), k);
    case ScreenRead(now, screen) => TrackOther(c, s, A.ScreenState(now, screen), k);
    case TrackerTick(now) => TrackOther(c, s, A.Tick(now), k);
    case HoldRecheck(now) => TrackOther(c, s, A.Recheck(now), k);
    case QuietTimer(now) => SettleOther(c, s, G.QuietTimer(now), k);
    case FallbackTimer(now) => SettleOther(c, s, G.FallbackTimer(now), k);
    case ChildExited(_, exit) => OtherSendReady(s.hub, H.ChildExitFrame(exit), k);
    case SocketOpened(_) => OpenedOther(c, s.hub, k);
    case Registered(now, token) =>
      OtherRegistered(s.hub, token, s.gate.ready, A.SnapshotOf(c.tracker, s.tracker, now), k);
    case HeartbeatTimer(_) => OtherSendReady(s.hub, H.Heartbeat, k);
    case _ =>
  }

  lemma OpenedOther(c: Config, h: H.State, k: nat)
    ensures ReadyCount(H.OnOpen(c.hub, h).journal, k) == ReadyCount(h.journal, k)
  {
    SafeSendReadyCount(H.SetPhase(h, H.Open), H.Register(H.CredentialOf(c.hub, h)), k);
  }

  /** A socket that is open stays open, or gets no further frame. */
  lemma OpenStep(c: Config, s: State, e: Event, k: nat)
    requires OpenAs(s.hub, k) && Enabled(s, e) && SocketInvariant(s.hub)
    ensures OpenAs(Next(c, s, e).hub, k) || Next(c, s, e).hub.journal == s.hub.journal
  {
    match e
    case Data(now, bytes, chunk) => DataOpen(c, s, now, bytes, chunk, k);
    case Registered(now, token) =>
      RegisteredOpen(s.hub, token, s.gate.ready, A.SnapshotOf(c.tracker, s.tracker, now), k);
    case _ =>
  }

  lemma DataOpen(c: Config, s: State, now: int, bytes: nat, chunk: string, k: nat)
    requires OpenAs(s.hub, k)
    ensures OpenAs(OnData(c, s, now, bytes, chunk).hub, k)
  {
  }

  lemma RegisteredOpen(h: H.State, token: Option<string>, ready: bool, snapshot: A.Snapshot, k: nat)
    requires OpenAs(h, k)
    ensures OpenAs(H.OnRegistered(h, token, ready, snapshot), k)
  {
    var d := H.FlushChildExit(H.TakeToken(H.NoteRegistered(h), token));
    assert d.ws == h.ws;
  }

  /** Ready frames are never taken back. */
  lemma ReadyStays(c: Config, s: State, e: Event, k: nat)
    requires OpenAs(s.hub, k) && Enabled(s, e) && SocketInvariant(s.hub)
    requires OpenAs(Next(c, s, e).hub, k) && LatchedLive(s, k)
    ensures LatchedLive(Next(c, s, e), k)
  {
  }

  predicate ReadyTold(s: State, k: nat, ever: bool) {
    ReadyCount(s.hub.journal, k) == if ever then 1 else 0
  }

  lemma OpenReady(s: State, k: nat)
    requires ReadyOnce(s.hub, s.gate.ready) && OpenAs(s.hub, k)
    ensures ReadyTold(s, k, LatchedLive(s, k))
  {
  }

  lemma ReadyToldStep(c: Config, s: State, e: Event, k: nat, ever: bool)
    requires Enabled(s, e) && SocketInvariant(s.hub) && ReadyOnce(s.hub, s.gate.ready)
    requires ReadyOnce(Next(c, s, e).hub, Next(c, s, e).gate.ready)
    requires ReadyTold(s, k, ever)
    ensures ReadyTold(Next(c, s, e), k, LatchedLive(Next(c, s, e), k) || ever)
  {
    var t := Next(c, s, e);
    if OpenAs(s.hub, k) {
      OpenReady(s, k);
      OpenStep(c, s, e, k);
    } else {
      OtherStep(c, s, e, k);
    }
    if OpenAs(t.hub, k) {
      OpenReady(t, k);
      if OpenAs(s.hub, k) && LatchedLive(s, k) {
        ReadyStays(c, s, e, k);
      }
    }
  }

  /** In every run, for every socket there ever was: it has been handed exactly one ready frame if at some moment the
      gate had latched while it was registered and open, and none otherwise. */
  lemma {:induction false} ReadyOnEverySocket(c: Config, launch: Launch, events: seq<Event>, k: nat)
    requires Possible(c, launch, events) && AnsweredOnce(c, launch, events)
    ensures ReadyTold(Run(c, launch, events), k, EverLatchedLive(c, launch, events, k))
  {
    if events != [] {
      var init, e := Init(events), Last(events);
      ReadyOnEverySocket(c, launch, init, k);
      ReadyExactlyOnce(c, launch, init);
      ReadyExactlyOnce(c, launch, events);
      SocketAlways(c, launch, init);
      ReadyToldStep(c, Run(c, launch, init), e, k, EverLatchedLive(c, launch, init, k));
    }
  }
}
