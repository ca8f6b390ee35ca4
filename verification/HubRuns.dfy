/** What holds in every run of the hub connection. */
module HubRuns {
  import opened Options
  import opened Runs
  import A = ActivityTracker
  import opened HubClient

  datatype Event =
    | Start(ts: int, created: bool)
    | Opened(ts: int)
    | LeavesOpen(ts: int)
    | Dropped(ts: int)
    | Registered(ts: int, token: Option<string>, ready: bool, snapshot: A.Snapshot)
    | ReconnectTimer(ts: int, created: bool)
    | HeartbeatTimer(ts: int)
    | Activity(ts: int, report: A.Snapshot)
    | Latch(ts: int)
    | Exit(ts: int, exit: ChildExit)
    | Shutdown(ts: int)

  function Next(c: Config, s: State, e: Event): State {
    match e
    case Start(now, created) => Connect(c, s, now, created)
    case Opened(_) => OnOpen(c, s)
    case LeavesOpen(_) => SetPhase(s, Closing)
    case Dropped(now) => OnDisconnected(c, s, now)
    case Registered(_, token, ready, snapshot) => OnRegistered(s, token, ready, snapshot)
    case ReconnectTimer(now, created) => Connect(c, s.(reconnectTimer := None), now, created)
    case HeartbeatTimer(_) => SafeSend(s, Heartbeat)
    case Activity(_, report) => SendActivity(s, FrameOf(report))
    case Latch(_) => SendReady(s)
    case Exit(_, exit) => SendChildExit(s, exit)
    case Shutdown(_) => Close(s)
  }

  function Run(c: Config, events: seq<Event>): State {
    if events == [] then INITIAL else Next(c, Run(c, Init(events)), Last(events))
  }

  function Started(events: seq<Event>): bool {
    events != [] && (Last(events).Start? || Started(Init(events)))
  }

  function Reports(events: seq<Event>): set<nat> {
    if events == [] then {}
    else Reports(Init(events)) + (if Last(events).Exit? then {Last(events).exit.report} else {})
  }

  /** The client is started once; a socket opens once, speaks only after that, and is dropped once; timers fire when
      armed and due; every child exit reported is a new one. */
  predicate Enabled(c: Config, events: seq<Event>, e: Event) {
    var s := Run(c, events);
    match e
    case Start(_, _) => !Started(events)
    case Opened(_) => s.ws.Some? && s.ws.value.phase == Connecting
    case LeavesOpen(_) => s.ws.Some?
    case Dropped(_) => s.ws.Some?
    case Registered(_, _, _, _) => s.ws.Some? && s.ws.value.phase != Connecting
    case ReconnectTimer(now, _) => s.reconnectTimer.Some? && s.reconnectTimer.value <= now
    case HeartbeatTimer(_) => s.heartbeat
    case Exit(_, exit) => exit.report !in Reports(events)
    case _ => true
  }

  predicate Possible(c: Config, events: seq<Event>) {
    events == [] || (Possible(c, Init(events)) && Enabled(c, Init(events), Last(events)))
  }

  // ---- Exactly one lifeline ----

  predicate Lifeline(s: State, started: bool) {
    && (!s.closed && started ==> (s.ws.Some? <==> s.reconnectTimer.None?))
    && (!started ==> s.ws.None? && s.reconnectTimer.None? && !s.registered)
    && (s.closed ==> s.reconnectTimer.None?)
    && (s.heartbeat ==> s.registered)
    && (s.registered && !s.closed ==> s.heartbeat)
  }

  lemma SafeSendFields(s: State, frame: Frame)
    ensures SafeSend(s, frame).(journal := s.journal) == s
  {
  }

  lemma RegisteredFields(s: State, token: Option<string>, ready: bool, snapshot: A.Snapshot)
    ensures var t := OnRegistered(s, token, ready, snapshot);
            && t.ws == s.ws && t.sockets == s.sockets && t.registered && t.reconnectAttempts == 0 && t.heartbeat
            && t.reconnectTimer == s.reconnectTimer && t.closed == s.closed && t.pendingChildExit == None
            && t.sessionToken == if token.Some? then token else s.sessionToken
  {
    SafeSendFields(NoteRegistered(s).(sessionToken := token), RegisterAck(if token.Some? then token.value else ""));
  }

  lemma LifelineStep(c: Config, events: seq<Event>, e: Event)
    requires Lifeline(Run(c, events), Started(events)) && Enabled(c, events, e)
    ensures Lifeline(Next(c, Run(c, events), e), Started(events) || e.Start?)
  {
    var s := Run(c, events);
    match e
    case Registered(_, token, ready, snapshot) => RegisteredFields(s, token, ready, snapshot);
    case _ =>
  }

  /** After the single start and until the client is shut down there is a socket or an armed reconnect timer, never both
      and never neither; and the heartbeat runs exactly while registered. */
  lemma {:induction false} ExactlyOneLifeline(c: Config, events: seq<Event>)
    requires Possible(c, events)
    ensures Lifeline(Run(c, events), Started(events))
  {
    if events != [] {
      ExactlyOneLifeline(c, Init(events));
      LifelineStep(c, Init(events), Last(events));
    }
  }

  lemma ClosedStep(c: Config, s: State, e: Event)
    requires s.closed
    ensures Next(c, s, e).closed && Next(c, s, e).sockets == s.sockets
  {
    match e
    case Registered(_, token, ready, snapshot) => RegisteredFields(s, token, ready, snapshot);
    case _ =>
  }

  /** Once shut down, always shut down, and no further socket is created. */
  lemma {:induction false} ClosedForGood(c: Config, events: seq<Event>, more: seq<Event>)
    requires Run(c, events).closed
    ensures Run(c, events + more).closed && Run(c, events + more).sockets == Run(c, events).sockets
  {
    if more == [] {
      assert events + more == events;
    } else {
      assert Init(events + more) == events + Init(more);
      ClosedForGood(c, events, Init(more));
      ClosedStep(c, Run(c, events + Init(more)), Last(more));
    }
  }

  // ---- Backoff ----

  /** The waits armed since the last registration, oldest first. */
  function Waits(c: Config, events: seq<Event>): seq<int> {
    if events == [] then [] else
      var s := Run(c, Init(events));
      var t := Run(c, events);
      var before := Waits(c, Init(events));
      if Last(events).Registered? then []
      else if t.reconnectTimer.Some? && (s.reconnectTimer.None? || Last(events).ReconnectTimer?)
      then before + [t.reconnectTimer.value - Last(events).ts]
      else before
  }

  lemma AttemptsStep(c: Config, s: State, e: Event)
    ensures var t := Next(c, s, e);
            if e.Registered? then t.reconnectAttempts == 0
            else if t.reconnectTimer.Some? && (s.reconnectTimer.None? || e.ReconnectTimer?)
            then t.reconnectAttempts == s.reconnectAttempts + 1
                 && t.reconnectTimer == Some(e.ts + Backoff(c, s.reconnectAttempts))
            else t.reconnectAttempts == s.reconnectAttempts
  {
    match e
    case Registered(_, token, ready, snapshot) => RegisteredFields(s, token, ready, snapshot);
    case _ =>
  }

  lemma {:induction false} WaitsAreBackoffs(c: Config, events: seq<Event>)
    ensures var waits := Waits(c, events);
            |waits| == Run(c, events).reconnectAttempts && forall k | 0 <= k < |waits| :: waits[k] == Backoff(c, k)
  {
    if events != [] {
      WaitsAreBackoffs(c, Init(events));
      AttemptsStep(c, Run(c, Init(events)), Last(events));
    }
  }

  /** The k-th wait since the last registration is the base doubled k times, up to the maximum. */
  lemma BackoffSchedule(c: Config, events: seq<Event>, k: nat)
    requires k < |Waits(c, events)|
    ensures var grown := c.backoffBaseMs * Pow2(k);
            Waits(c, events)[k] == if grown <= c.backoffMaxMs then grown else c.backoffMaxMs
    ensures |Waits(c, events)| == Run(c, events).reconnectAttempts
  {
    WaitsAreBackoffs(c, events);
  }

  /** The first wait since the last registration is the base and each wait doubles the one before, up to the maximum. */
  lemma WaitsDouble(c: Config, events: seq<Event>)
    ensures var waits := Waits(c, events);
            && (waits != [] ==> waits[0] == AtMost(c.backoffBaseMs, c.backoffMaxMs))
            && forall k | 0 <= k < |waits| - 1 :: waits[k + 1] == AtMost(2 * waits[k], c.backoffMaxMs)
  {
    var waits := Waits(c, events);
    WaitsAreBackoffs(c, events);
    forall k | 0 <= k < |waits| - 1 ensures waits[k + 1] == AtMost(2 * waits[k], c.backoffMaxMs) {
      BackoffDoubles(c, k);
    }
  }

  function AtMost(wait: int, max: int): int {
    if wait <= max then wait else max
  }

  lemma BackoffDoubles(c: Config, k: nat)
    ensures Backoff(c, k + 1) == AtMost(2 * Backoff(c, k), c.backoffMaxMs)
  {
    assert c.backoffBaseMs * Pow2(k + 1) == 2 * (c.backoffBaseMs * Pow2(k));
  }

  // ---- Credentials ----

  /** The last session token the hub has sent. */
  function LatestToken(events: seq<Event>): Option<string> {
    if events == [] then None
    else if Last(events).Registered? && Last(events).token.Some? then Last(events).token
    else LatestToken(Init(events))
  }

  lemma {:induction false} TokenKept(c: Config, events: seq<Event>)
    ensures Run(c, events).sessionToken == LatestToken(events)
  {
    if events != [] {
      TokenKept(c, Init(events));
      var s := Run(c, Init(events));
      match Last(events)
      case Registered(_, token, ready, snapshot) => RegisteredFields(s, token, ready, snapshot);
      case _ =>
    }
  }

  predicate IsRegister(entry: Entry) {
    entry.Handed? && entry.frame.Register?
  }

  /** A journal grows only at its end, and by nothing but entries the predicate allows. */
  predicate Grows(before: seq<Entry>, after: seq<Entry>) {
    before <= after
  }

  predicate NoRegisterAfter(journal: seq<Entry>, n: nat) {
    forall i | n <= i < |journal| :: !IsRegister(journal[i])
  }

  lemma RegisteredNoRegister(s: State, token: Option<string>, ready: bool, snapshot: A.Snapshot)
    ensures var t := OnRegistered(s, token, ready, snapshot);
            Grows(s.journal, t.journal) && NoRegisterAfter(t.journal, |s.journal|)
  {
    var a := NoteRegistered(s);
    var b := TakeToken(a, token);
    assert Grows(s.journal, b.journal) && NoRegisterAfter(b.journal, |s.journal|);
    var d := FlushChildExit(b);
    assert Grows(s.journal, d.journal) && NoRegisterAfter(d.journal, |s.journal|);
  }

  /** Every register sent carries the latest session token the hub has issued, and the bootstrap token only while it has
      issued none. */
  lemma RegisterCarriesLatest(c: Config, events: seq<Event>, e: Event)
    ensures var s, t := Run(c, events), Run(c, events + [e]);
            && Grows(s.journal, t.journal)
            && forall i | |s.journal| <= i < |t.journal| && IsRegister(t.journal[i]) ::
                 t.journal[i].frame.credential
                 == if LatestToken(events).Some? then Session(LatestToken(events).value)
                    else Bootstrap(c.bootstrapToken)
  {
    var s := Run(c, events);
    assert Init(events + [e]) == events;
    TokenKept(c, events);
    match e
    case Registered(_, token, ready, snapshot) => RegisteredNoRegister(s, token, ready, snapshot);
    case _ =>
  }

  // ---- Nothing is reported before registration ----

  predicate IsReport(frame: Frame) {
    frame.ActivityFrame? || frame.ReadyFrame?
  }

  /** Every activity and ready frame comes after `registered` was processed on the same socket. */
  predicate Announced(journal: seq<Entry>) {
    forall i | 0 <= i < |journal| && journal[i].Handed? && IsReport(journal[i].frame) ::
      RegisteredSeen(journal[i].socket) in journal[..i]
  }

  predicate ReportInvariant(s: State) {
    && Announced(s.journal)
    && (s.registered ==> s.ws.Some? && RegisteredSeen(s.ws.value.id) in s.journal)
  }

  lemma AnnouncedSnoc(journal: seq<Entry>, entry: Entry)
    requires Announced(journal)
    requires entry.Handed? && IsReport(entry.frame) ==> RegisteredSeen(entry.socket) in journal
    ensures Announced(journal + [entry])
  {
    var after := journal + [entry];
    forall i | 0 <= i < |after| && after[i].Handed? && IsReport(after[i].frame)
      ensures RegisteredSeen(after[i].socket) in after[..i]
    {
      assert after[..i] == journal[..i];
      if i == |journal| {
        assert journal[..i] == journal;
      }
    }
  }

  lemma SafeSendReports(s: State, frame: Frame)
    requires ReportInvariant(s) && (IsReport(frame) ==> s.registered)
    ensures ReportInvariant(SafeSend(s, frame))
  {
    if IsOpen(s) {
      AnnouncedSnoc(s.journal, Handed(s.ws.value.id, frame));
    }
  }

  lemma NoteRegisteredReports(s: State)
    requires ReportInvariant(s) && s.ws.Some?
    ensures ReportInvariant(NoteRegistered(s))
  {
    AnnouncedSnoc(s.journal, RegisteredSeen(s.ws.value.id));
    var t := NoteRegistered(s);
    assert t.journal[|s.journal|] == RegisteredSeen(s.ws.value.id);
  }

  lemma RegisteredReports(s: State, token: Option<string>, ready: bool, snapshot: A.Snapshot)
    requires ReportInvariant(s) && s.ws.Some?
    ensures ReportInvariant(OnRegistered(s, token, ready, snapshot))
  {
    var a := NoteRegistered(s);
    NoteRegisteredReports(s);
    if token.Some? {
      SafeSendReports(a.(sessionToken := token), RegisterAck(token.value));
    }
    var b := TakeToken(a, token);
    if b.pendingChildExit.Some? {
      SafeSendReports(b, ChildExitFrame(b.pendingChildExit.value));
    }
    var d := FlushChildExit(b);
    SafeSendReports(d, ReadyFrame);
    SafeSendReports(if ready then SendReady(d) else d, FrameOf(snapshot));
  }

  lemma ReportStep(c: Config, events: seq<Event>, e: Event)
    requires ReportInvariant(Run(c, events)) && Enabled(c, events, e)
    requires e.Start? ==> !Run(c, events).registered
    requires e.ReconnectTimer? ==> !Run(c, events).registered || Run(c, events).closed
    ensures ReportInvariant(Next(c, Run(c, events), e))
  {
    var s := Run(c, events);
    match e
    case Opened(_) => SafeSendReports(SetPhase(s, Open), Register(CredentialOf(c, s)));
    case Registered(_, token, ready, snapshot) => RegisteredReports(s, token, ready, snapshot);
    case HeartbeatTimer(_) => SafeSendReports(s, Heartbeat);
    case Activity(_, report) =>
      if s.registered {
        SafeSendReports(s, FrameOf(report));
      }
    case Latch(_) =>
      if s.registered {
        SafeSendReports(s, ReadyFrame);
      }
    case Exit(_, exit) => SafeSendReports(s, ChildExitFrame(exit));
    case _ =>
  }

  /** No activity or ready frame is handed to a socket before `registered` has been processed on it. */
  lemma {:induction false} NothingBeforeRegistered(c: Config, events: seq<Event>)
    requires Possible(c, events)
    ensures ReportInvariant(Run(c, events))
  {
    if events != [] {
      NothingBeforeRegistered(c, Init(events));
      ExactlyOneLifeline(c, Init(events));
      ReportStep(c, Init(events), Last(events));
    }
  }

  // ---- The registration conversation ----

  function Maybe(condition: bool, entry: Entry): seq<Entry> {
    if condition then [entry] else []
  }

  /** On an open socket a registration is answered in this order: the token is acknowledged, a pending child exit
      delivered, readiness announced, and the activity reported. */
  lemma RegistrationConversation(s: State, token: Option<string>, ready: bool, snapshot: A.Snapshot)
    requires IsOpen(s)
    ensures var k := s.ws.value.id;
            OnRegistered(s, token, ready, snapshot).journal
            == s.journal + [RegisteredSeen(k)]
               + Maybe(token.Some?, Handed(k, RegisterAck(if token.Some? then token.value else "")))
               + (if s.pendingChildExit.Some? then [Handed(k, ChildExitFrame(s.pendingChildExit.value))] else [])
               + Maybe(ready, Handed(k, ReadyFrame))
               + [Handed(k, FrameOf(snapshot))]
  {
    var k := s.ws.value.id;
    var a := s.journal + [RegisteredSeen(k)];
    var b := a + Maybe(token.Some?, Handed(k, RegisterAck(if token.Some? then token.value else "")));
    var d := b + (if s.pendingChildExit.Some? then [Handed(k, ChildExitFrame(s.pendingChildExit.value))] else []);
    assert TakeToken(NoteRegistered(s), token).journal == b;
    var t := FlushChildExit(TakeToken(NoteRegistered(s), token));
    assert t.journal == d && t.registered && IsOpen(t) && t.ws == s.ws;
    assert (if ready then SendReady(t) else t).journal == d + Maybe(ready, Handed(k, ReadyFrame));
  }
}
