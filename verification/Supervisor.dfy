/** The event wiring of the supervisor (packages/tui-supervisor/src/main.ts): child output, screen and keyboard drive
    the trackers and the readiness gate, whose notifications drive the hub client. */
module Supervisor {
  import opened Options
  import opened AgentTitles
  import A = ActivityTracker
  import T = TitleStateTracker
  import G = ReadinessGate
  import H = HubClient

  datatype Config = Config(agent: AgentKind, tracker: A.Config, gate: G.Config, hub: H.Config)

  datatype State = State(tracker: A.State, titles: T.Tracked, gate: G.State, hub: H.State)

  /** The hub client is the gate's one listener. */
  const HUB_LISTENER: nat := 0

  datatype Event =
    | Data(ts: int, bytes: nat, chunk: string)
    | Resized(ts: int)
    | Typed(ts: int)
    | ScreenRead(ts: int, screen: PaneState)
    | TrackerTick(ts: int)
    | HoldRecheck(ts: int)
    | QuietTimer(ts: int)
    | FallbackTimer(ts: int)
    | ChildExited(ts: int, exit: H.ChildExit)
    | SocketOpened(ts: int)
    | SocketClosing(ts: int)
    | SocketDropped(ts: int)
    | Registered(ts: int, token: Option<string>)
    | ReconnectTimer(ts: int, created: bool)
    | HeartbeatTimer(ts: int)

  function Boot(c: Config, ts: int, created: bool): State {
    State(A.Next(c.tracker, A.INITIAL, A.Start(ts)).state, T.INITIAL,
          G.Next(c.gate, G.INITIAL, G.Listen(ts, HUB_LISTENER)), H.Connect(c.hub, H.INITIAL, ts, created))
  }

  function FrameOf(t: A.Transition): H.Frame {
    H.ActivityFrame(t.state, t.bytesInWindow, t.status, Some(t.decidedBy))
  }

  /** A tracker operation, its notification forwarded to the hub. */
  function Track(c: Config, s: State, e: A.Event): State {
    var o := A.Next(c.tracker, s.tracker, e);
    s.(tracker := o.state, hub := if o.emitted.Some? then H.SendActivity(s.hub, FrameOf(o.emitted.value)) else s.hub)
  }

  /** A gate operation, its listener forwarded to the hub. */
  function Settle(c: Config, s: State, e: G.Event): State {
    var g := G.Next(c.gate, s.gate, e);
    s.(gate := g, hub := if |g.fired| > |s.gate.fired| then H.SendReady(s.hub) else s.hub)
  }

  function OnData(c: Config, s: State, now: int, bytes: nat, chunk: string): State {
    var recorded := Track(c, s, A.Record(now, bytes));
    var titles := T.AfterPush(c.agent, s.titles, chunk);
    var titled := Track(c, recorded.(titles := titles), A.TitleState(now, titles.status.state));
    Settle(c, titled, G.Output(now, bytes))
  }

  function Next(c: Config, s: State, e: Event): State {
    match e
    case Data(now, bytes, chunk) => OnData(c, s, now, bytes, chunk)
    case Resized(now) => Track(c, s, A.Resize(now))
    case Typed(now) => Track(c, s, A.Input(now))
    case ScreenRead(now, screen) => Track(c, s, A.ScreenState(now, screen))
    case TrackerTick(now) => Track(c, s, A.Tick(now))
    case HoldRecheck(now) => Track(c, s, A.Recheck(now))
    case QuietTimer(now) => Settle(c, s, G.QuietTimer(now))
    case FallbackTimer(now) => Settle(c, s, G.FallbackTimer(now))
    case ChildExited(_, exit) => s.(hub := H.SendChildExit(s.hub, exit))
    case SocketOpened(_) => s.(hub := H.OnOpen(c.hub, s.hub))
    case SocketClosing(_) => s.(hub := H.SetPhase(s.hub, H.Closing))
    case SocketDropped(now) => s.(hub := H.OnDisconnected(c.hub, s.hub, now))
    case Registered(now, token) =>
      s.(hub := H.OnRegistered(s.hub, token, s.gate.ready, A.SnapshotOf(c.tracker, s.tracker, now)))
    case ReconnectTimer(now, created) => s.(hub := H.Connect(c.hub, s.hub.(reconnectTimer := None), now, created))
    case HeartbeatTimer(_) => s.(hub := H.SafeSend(s.hub, H.Heartbeat))
  }

  class Process {
    const config: Config
    const tracker: A.Tracker
    const titles: T.Tracker
    const gate: G.Gate
    const hub: H.Client

    ghost predicate Valid()
      reads this
    {
      && tracker.config == config.tracker && titles.agentKind == config.agent
      && gate.config == config.gate && hub.config == config.hub
    }

    ghost function Value(): State
      reads tracker, titles, gate, hub
    {
      State(tracker.Value(), titles.Value(), gate.Value(), hub.Value())
    }

    constructor (config: Config, now: int, created: bool)
      ensures Valid() && this.config == config
      ensures fresh(tracker) && fresh(titles) && fresh(gate) && fresh(hub)
      ensures Value() == Boot(config, now, created)
    {
      this.config := config;
      var t := new A.Tracker(config.tracker);
      var l := new T.Tracker(config.agent);
      var g := new G.Gate(config.gate);
      var h := new H.Client(config.hub);
      g.OnReady(now, HUB_LISTENER);
      h.TryConnect(now, created);
      t.StartTicking(now);
      tracker, titles, gate, hub := t, l, g, h;
    }

    /** PtyProxy 'data'. */
    method HandleData(now: int, bytes: nat, chunk: string)
      requires Valid()
      modifies tracker, titles, gate
      ensures Value() == Next(config, old(Value()), Data(now, bytes, chunk))
    {
      tracker.RecordOutput(now, bytes);
      titles.Push(chunk);
      tracker.SetTitleState(now, titles.state);
      gate.NotifyOutput(now, bytes);
    }

    method HandleResize(now: int)
      requires Valid()
      modifies tracker
      ensures Value() == Next(config, old(Value()), Resized(now))
    {
      tracker.NotifyResize(now);
    }

    method HandleInput(now: int)
      requires Valid()
      modifies tracker
      ensures Value() == Next(config, old(Value()), Typed(now))
    {
      tracker.NotifyInput(now);
    }

    /** The tracker's 'transition' listener. */
    method Forward(emitted: Option<A.Transition>)
      modifies hub
      ensures hub.Value()
           == if emitted.Some? then H.SendActivity(old(hub.Value()), FrameOf(emitted.value)) else old(hub.Value())
    {
      if emitted.Some? {
        hub.ReportActivity(FrameOf(emitted.value));
      }
    }

    method HandleScreen(now: int, screen: PaneState)
      requires Valid()
      modifies tracker, hub
      ensures Value() == Next(config, old(Value()), ScreenRead(now, screen))
    {
      var emitted := tracker.SetScreenState(now, screen);
      Forward(emitted);
    }

    method HandleTick(now: int)
      requires Valid()
      modifies tracker, hub
      ensures Value() == Next(config, old(Value()), TrackerTick(now))
    {
      var emitted := tracker.OnTick(now);
      Forward(emitted);
    }

    method HandleRecheck(now: int)
      requires Valid()
      modifies tracker, hub
      ensures Value() == Next(config, old(Value()), HoldRecheck(now))
    {
      var emitted := tracker.OnRecheck(now);
      Forward(emitted);
    }

    method HandleQuiet(now: int)
      requires Valid()
      modifies gate, hub
      ensures Value() == Next(config, old(Value()), QuietTimer(now))
    {
      var fired := |gate.fired|;
      gate.OnQuiet(now);
      if |gate.fired| > fired {
        hub.ReportReady();
      }
    }

    method HandleFallback(now: int)
      requires Valid()
      modifies gate, hub
      ensures Value() == Next(config, old(Value()), FallbackTimer(now))
    {
      var fired := |gate.fired|;
      gate.OnFallback(now);
      if |gate.fired| > fired {
        hub.ReportReady();
      }
    }

    method HandleRegistered(now: int, token: Option<string>)
      requires Valid()
      modifies hub
      ensures Value() == Next(config, old(Value()), Registered(now, token))
    {
      var snapshot := tracker.GetSnapshot(now);
      hub.HandleRegistered(token, gate.ready, snapshot);
    }

    method HandleExit(now: int, exit: H.ChildExit)
      requires Valid()
      modifies hub
      ensures Value() == Next(config, old(Value()), ChildExited(now, exit))
    {
      hub.ReportChildExit(exit);
    }
  }
}
