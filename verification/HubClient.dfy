/** The supervisor's connection to the hub (packages/tui-supervisor/src/HubClient.ts): register handshake, reports,
    reconnecting with exponential backoff. Sockets are numbered in the order they are created; sends on an open socket
    succeed. */
module HubClient {
  import opened Options
  import A = ActivityTracker

  datatype Config = Config(bootstrapToken: Option<string>, backoffBaseMs: nat, backoffMaxMs: nat)

  datatype Credential = Bootstrap(token: Option<string>) | Session(sessionToken: string)

  /** A report that the child has exited; `report` tells reports apart. */
  datatype ChildExit = ChildExit(report: nat, exitCode: Option<int>, signal: Option<int>)

  datatype Frame =
    | Register(credential: Credential)
    | RegisterAck(token: string)
    | Heartbeat
    | ActivityFrame(state: A.Activity, bytesInWindow: nat, status: Option<A.Status>, decidedBy: Option<A.DecidedBy>)
    | ReadyFrame
    | ChildExitFrame(exit: ChildExit)

  datatype Phase = Connecting | Open | Closing
  datatype Socket = Socket(id: nat, phase: Phase)

  /** What happened on the sockets, in order: a frame handed to one, or its `registered` processed. */
  datatype Entry = Handed(socket: nat, frame: Frame) | RegisteredSeen(socket: nat)

  datatype State = State(
    ws: Option<Socket>, sockets: nat, registered: bool, reconnectAttempts: nat, heartbeat: bool,
    reconnectTimer: Option<int>, pendingChildExit: Option<ChildExit>, sessionToken: Option<string>, closed: bool,
    journal: seq<Entry>)

  const INITIAL := State(None, 0, false, 0, false, None, None, None, false, [])

  function Pow2(k: nat): nat {
    if k == 0 then 1 else 2 * Pow2(k - 1)
  }

  /** The wait before the next attempt when k attempts have been scheduled since the last registration. */
  function Backoff(c: Config, k: nat): nat {
    var grown := c.backoffBaseMs * Pow2(k);
    if grown <= c.backoffMaxMs then grown else c.backoffMaxMs
  }

  predicate IsOpen(s: State) {
    s.ws.Some? && s.ws.value.phase == Open
  }

  function SafeSend(s: State, frame: Frame): State {
    if IsOpen(s) then s.(journal := s.journal + [Handed(s.ws.value.id, frame)]) else s
  }

  function SendActivity(s: State, frame: Frame): State {
    if s.registered then SafeSend(s, frame) else s
  }

  function SendReady(s: State): State {
    if s.registered then SafeSend(s, ReadyFrame) else s
  }

  function SendChildExit(s: State, exit: ChildExit): State {
    if s.registered && IsOpen(s) then SafeSend(s, ChildExitFrame(exit)) else s.(pendingChildExit := Some(exit))
  }

  function ScheduleReconnect(c: Config, s: State, now: int): State {
    if s.closed || s.reconnectTimer.Some? then s
    else s.(reconnectTimer := Some(now + Backoff(c, s.reconnectAttempts)), reconnectAttempts := s.reconnectAttempts + 1)
  }

  /** Creating the socket either succeeds or throws. */
  function Connect(c: Config, s: State, now: int, created: bool): State {
    if s.closed then s
    else if created then s.(ws := Some(Socket(s.sockets, Connecting)), sockets := s.sockets + 1)
    else ScheduleReconnect(c, s, now)
  }

  function CredentialOf(c: Config, s: State): Credential {
    if s.sessionToken.Some? then Session(s.sessionToken.value) else Bootstrap(c.bootstrapToken)
  }

  function SetPhase(s: State, phase: Phase): State {
    if s.ws.Some? then s.(ws := Some(s.ws.value.(phase := phase))) else s
  }

  function OnOpen(c: Config, s: State): State {
    SafeSend(SetPhase(s, Open), Register(CredentialOf(c, s)))
  }

  function OnDisconnected(c: Config, s: State, now: int): State {
    ScheduleReconnect(c, s.(registered := false, heartbeat := false, ws := None), now)
  }

  function NoteRegistered(s: State): State {
    s.(registered := true, reconnectAttempts := 0, heartbeat := true,
       journal := if s.ws.Some? then s.journal + [RegisteredSeen(s.ws.value.id)] else s.journal)
  }

  function TakeToken(s: State, token: Option<string>): State {
    if token.Some? then SafeSend(s.(sessionToken := token), RegisterAck(token.value)) else s
  }

  function FlushChildExit(s: State): State {
    if s.pendingChildExit.Some?
    then SafeSend(s, ChildExitFrame(s.pendingChildExit.value)).(pendingChildExit := None) else s
  }

  function FrameOf(snapshot: A.Snapshot): Frame {
    ActivityFrame(snapshot.state, snapshot.bytesInWindow, snapshot.status, snapshot.decidedBy)
  }

  /** The `registered` message, with what the readiness gate and the tracker say at that moment. */
  function OnRegistered(s: State, token: Option<string>, ready: bool, snapshot: A.Snapshot): State {
    var t := FlushChildExit(TakeToken(NoteRegistered(s), token));
    SendActivity(if ready then SendReady(t) else t, FrameOf(snapshot))
  }

  function Close(s: State): State {
    SetPhase(s.(closed := true, heartbeat := false, reconnectTimer := None), Closing)
  }

  class Client {
    const config: Config
    var ws: Option<Socket>
    var sockets: nat
    var registered: bool
    var reconnectAttempts: nat
    var heartbeat: bool
    var reconnectTimer: Option<int>
    var pendingChildExit: Option<ChildExit>
    var sessionToken: Option<string>
    var closed: bool
    var journal: seq<Entry>

    function Value(): State
      reads this
    {
      State(ws, sockets, registered, reconnectAttempts, heartbeat, reconnectTimer, pendingChildExit, sessionToken,
            closed, journal)
    }

    constructor (config: Config)
      ensures this.config == config && Value() == INITIAL
    {
      this.config := config;
      ws, sockets, registered, reconnectAttempts, heartbeat := None, 0, false, 0, false;
      reconnectTimer, pendingChildExit, sessionToken, closed, journal := None, None, None, false, [];
    }

    method TryConnect(now: int, created: bool)
      modifies this
      ensures Value() == Connect(config, old(Value()), now, created)
    {
      if closed { return; }
      if created {
        ws := Some(Socket(sockets, Connecting));
        sockets := sockets + 1;
      } else {
        Reschedule(now);
      }
    }

    method Send(frame: Frame)
      modifies this
      ensures Value() == SafeSend(old(Value()), frame)
    {
      if ws.Some? && ws.value.phase == Open {
        journal := journal + [Handed(ws.value.id, frame)];
      }
    }

    /** The socket reports that it is open. */
    method HandleOpen()
      modifies this
      ensures Value() == OnOpen(config, old(Value()))
    {
      if ws.Some? {
        ws := Some(ws.value.(phase := Open));
      }
      Send(Register(if sessionToken.Some? then Session(sessionToken.value) else Bootstrap(config.bootstrapToken)));
    }

    /** The socket leaves the open state before it reports that it is closed. */
    method HandleClosing()
      modifies this
      ensures Value() == SetPhase(old(Value()), Closing)
    {
      if ws.Some? {
        ws := Some(ws.value.(phase := Closing));
      }
    }

    method HandleClose(now: int)
      modifies this
      ensures Value() == OnDisconnected(config, old(Value()), now)
    {
      registered := false;
      heartbeat := false;
      ws := None;
      Reschedule(now);
    }

    method Reschedule(now: int)
      modifies this
      ensures Value() == ScheduleReconnect(config, old(Value()), now)
    {
      if closed || reconnectTimer.Some? { return; }
      var wait := Backoff(config, reconnectAttempts);
      reconnectAttempts := reconnectAttempts + 1;
      reconnectTimer := Some(now + wait);
    }

    method HandleReconnectTimer(now: int, created: bool)
      modifies this
      ensures Value() == Connect(config, old(Value()).(reconnectTimer := None), now, created)
    {
      reconnectTimer := None;
      TryConnect(now, created);
    }

    method HandleRegistered(token: Option<string>, ready: bool, snapshot: A.Snapshot)
      modifies this
      ensures Value() == OnRegistered(old(Value()), token, ready, snapshot)
    {
      registered := true;
      reconnectAttempts := 0;
      heartbeat := true;
      if ws.Some? {
        journal := journal + [RegisteredSeen(ws.value.id)];
      }
      assert Value() == NoteRegistered(old(Value()));
      if token.Some? {
        sessionToken := token;
        Send(RegisterAck(token.value));
      }
      FlushPending();
      if ready {
        ReportReady();
      }
      ReportActivity(FrameOf(snapshot));
    }

    method FlushPending()
      modifies this
      ensures Value() == FlushChildExit(old(Value()))
    {
      if pendingChildExit.Some? {
        Send(ChildExitFrame(pendingChildExit.value));
        pendingChildExit := None;
      }
    }

    method HandleHeartbeat()
      modifies this
      ensures Value() == SafeSend(old(Value()), Heartbeat)
    {
      Send(Heartbeat);
    }

    method ReportActivity(frame: Frame)
      modifies this
      ensures Value() == SendActivity(old(Value()), frame)
    {
      if !registered { return; }
      Send(frame);
    }

    method ReportReady()
      modifies this
      ensures Value() == SendReady(old(Value()))
    {
      if !registered { return; }
      Send(ReadyFrame);
    }

    method ReportChildExit(exit: ChildExit)
      modifies this
      ensures Value() == SendChildExit(old(Value()), exit)
    {
      if registered && ws.Some? && ws.value.phase == Open {
        Send(ChildExitFrame(exit));
      } else {
        pendingChildExit := Some(exit);
      }
    }

    method Shutdown()
      modifies this
      ensures Value() == Close(old(Value()))
    {
      closed := true;
      heartbeat := false;
      reconnectTimer := None;
      HandleClosing();
    }
  }
}
