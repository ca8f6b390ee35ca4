/** Child exits reach the hub at most once, and exactly when a registration on an open socket follows the report. */
module HubNotices {
  import opened Options
  import opened Runs
  import A = ActivityTracker
  import opened HubClient
  import opened HubRuns

  predicate IsExit(entry: Entry, report: nat) {
    entry.Handed? && entry.frame.ChildExitFrame? && entry.frame.exit.report == report
  }

  /** How often a child exit was handed to a socket. */
  function TimesSent(journal: seq<Entry>, report: nat): nat {
    if journal == [] then 0
    else TimesSent(journal[..|journal| - 1], report) + (if IsExit(journal[|journal| - 1], report) then 1 else 0)
  }

  function TimesPending(s: State, report: nat): nat {
    if s.pendingChildExit.Some? && s.pendingChildExit.value.report == report then 1 else 0
  }

  lemma TimesSentSnoc(journal: seq<Entry>, entry: Entry, report: nat)
    ensures TimesSent(journal + [entry], report)
            == TimesSent(journal, report) + (if IsExit(entry, report) then 1 else 0)
  {
    assert (journal + [entry])[..|journal|] == journal;
  }

  lemma SafeSendCount(s: State, frame: Frame, report: nat)
    ensures TimesSent(SafeSend(s, frame).journal, report)
         == TimesSent(s.journal, report)
            + (if IsOpen(s) && frame.ChildExitFrame? && frame.exit.report == report then 1 else 0)
  {
    if IsOpen(s) {
      TimesSentSnoc(s.journal, Handed(s.ws.value.id, frame), report);
    }
  }

  /** A registration sends what is pending if the socket is open, and forgets it either way. */
  lemma RegisteredCount(s: State, token: Option<string>, ready: bool, snapshot: A.Snapshot, report: nat)
    requires s.ws.Some?
    ensures var t := OnRegistered(s, token, ready, snapshot);
            && TimesSent(t.journal, report)
               == TimesSent(s.journal, report) + (if IsOpen(s) then TimesPending(s, report) else 0)
            && TimesPending(t, report) == 0
  {
    var a := NoteRegistered(s);
    TimesSentSnoc(s.journal, RegisteredSeen(s.ws.value.id), report);
    if token.Some? {
      SafeSendCount(a.(sessionToken := token), RegisterAck(token.value), report);
    }
    var b := TakeToken(a, token);
    assert TimesSent(b.journal, report) == TimesSent(s.journal, report);
    assert b.pendingChildExit == s.pendingChildExit && b.ws == s.ws;
    if b.pendingChildExit.Some? {
      SafeSendCount(b, ChildExitFrame(b.pendingChildExit.value), report);
    }
    RegisteredTailCount(FlushChildExit(b), ready, snapshot, report);
  }

  lemma RegisteredTailCount(d: State, ready: bool, snapshot: A.Snapshot, report: nat)
    ensures var t := SendActivity(if ready then SendReady(d) else d, FrameOf(snapshot));
            TimesSent(t.journal, report) == TimesSent(d.journal, report) && t.pendingChildExit == d.pendingChildExit
  {
    SafeSendCount(d, ReadyFrame, report);
    SafeSendCount(if ready then SendReady(d) else d, FrameOf(snapshot), report);
  }

  /** How one event changes how often a report has been sent and is pending. */
  lemma CountStep(c: Config, s: State, e: Event, report: nat)
    requires e.Registered? ==> s.ws.Some?
    ensures var t := Next(c, s, e);
            var sent := if e.Registered? && IsOpen(s) then TimesPending(s, report)
                        else if e.Exit? && e.exit.report == report && s.registered && IsOpen(s) then 1 else 0;
            && TimesSent(t.journal, report) == TimesSent(s.journal, report) + sent
            && TimesPending(t, report)
               == if e.Registered? then 0
                  else if e.Exit? && !(s.registered && IsOpen(s)) then (if e.exit.report == report then 1 else 0)
                  else TimesPending(s, report)
  {
    match e
    case Opened(_) => SafeSendCount(SetPhase(s, Open), Register(CredentialOf(c, s)), report);
    case Registered(_, token, ready, snapshot) => RegisteredCount(s, token, ready, snapshot, report);
    case HeartbeatTimer(_) => SafeSendCount(s, Heartbeat, report);
    case Activity(_, r) => SafeSendCount(s, FrameOf(r), report);
    case Latch(_) => SafeSendCount(s, ReadyFrame, report);
    case Exit(_, exit) => SafeSendCount(s, ChildExitFrame(exit), report);
    case _ => SilentStep(c, s, e);
  }

  lemma SilentStep(c: Config, s: State, e: Event)
    requires e.Start? || e.LeavesOpen? || e.Dropped? || e.ReconnectTimer? || e.Shutdown?
    ensures var t := Next(c, s, e); t.journal == s.journal && t.pendingChildExit == s.pendingChildExit
  {
  }

  /** Whatever happens, a child exit is sent at most once, and never before it is reported. */
  lemma {:induction false} AtMostOnce(c: Config, events: seq<Event>, report: nat)
    requires Possible(c, events)
    ensures var s := Run(c, events);
            TimesSent(s.journal, report) + TimesPending(s, report) <= if report in Reports(events) then 1 else 0
  {
    if events != [] {
      AtMostOnce(c, Init(events), report);
      CountStep(c, Run(c, Init(events)), Last(events), report);
    }
  }

  lemma {:induction false} PossiblePrefix(c: Config, events: seq<Event>, more: seq<Event>)
    requires Possible(c, events + more)
    ensures Possible(c, events)
  {
    if more == [] {
      assert events + more == events;
    } else {
      assert Init(events + more) == events + Init(more);
      PossiblePrefix(c, events, Init(more));
    }
  }

  /** A report that is neither sent nor pending any more is never sent. */
  lemma {:induction false} SettledForGood(c: Config, events: seq<Event>, more: seq<Event>, report: nat)
    requires Possible(c, events + more) && report in Reports(events) && TimesPending(Run(c, events), report) == 0
    ensures TimesSent(Run(c, events + more).journal, report) == TimesSent(Run(c, events).journal, report)
    ensures TimesPending(Run(c, events + more), report) == 0 && report in Reports(events + more)
  {
    if more == [] {
      assert events + more == events;
    } else {
      var all := events + more;
      assert Init(all) == events + Init(more);
      SettledForGood(c, events, Init(more), report);
      CountStep(c, Run(c, Init(all)), Last(all), report);
    }
  }

  // ---- Sent or lost ----

  predicate Live(s: State) {
    s.registered && IsOpen(s)
  }

  predicate DeliveredAtOnce(c: Config, before: seq<Event>) {
    Live(Run(c, before))
  }

  predicate Uneventful(events: seq<Event>) {
    forall i | 0 <= i < |events| :: !events[i].Registered? && !events[i].Exit?
  }

  /** The next registration is processed on an open socket, and no other exit is reported before it. */
  predicate DeliveredLater(c: Config, reported: seq<Event>, rest: seq<Event>) {
    exists n | 0 <= n < |rest| :: rest[n].Registered? && Uneventful(rest[..n]) && IsOpen(Run(c, reported + rest[..n]))
  }

  predicate OpenedIfRegistered(s: State) {
    s.registered ==> s.ws.Some? && s.ws.value.phase != Connecting
  }

  lemma OpenedStep(c: Config, events: seq<Event>, e: Event)
    requires OpenedIfRegistered(Run(c, events)) && Lifeline(Run(c, events), Started(events)) && Enabled(c, events, e)
    ensures OpenedIfRegistered(Next(c, Run(c, events), e))
  {
    match e
    case Registered(_, token, ready, snapshot) => RegisteredFields(Run(c, events), token, ready, snapshot);
    case _ =>
  }

  lemma {:induction false} RegisteredAfterOpening(c: Config, events: seq<Event>)
    requires Possible(c, events)
    ensures OpenedIfRegistered(Run(c, events))
  {
    if events != [] {
      RegisteredAfterOpening(c, Init(events));
      ExactlyOneLifeline(c, Init(events));
      OpenedStep(c, Init(events), Last(events));
    }
  }

  /** Only a registration makes the connection live. */
  lemma LiveOnlyByRegistration(c: Config, events: seq<Event>, e: Event)
    requires OpenedIfRegistered(Run(c, events)) && Enabled(c, events, e) && !e.Registered?
    ensures Live(Next(c, Run(c, events), e)) ==> Live(Run(c, events))
  {
  }

  lemma UneventfulSnoc(events: seq<Event>, e: Event)
    ensures Uneventful(events + [e]) <==> Uneventful(events) && !e.Registered? && !e.Exit?
  {
    var all := events + [e];
    assert forall i | 0 <= i < |events| :: all[i] == events[i];
    assert all[|events|] == e;
  }

  lemma DeliveredLaterSnoc(c: Config, reported: seq<Event>, rest: seq<Event>, e: Event)
    ensures DeliveredLater(c, reported, rest + [e])
       <==> DeliveredLater(c, reported, rest) || (e.Registered? && Uneventful(rest) && IsOpen(Run(c, reported + rest)))
  {
    var all := rest + [e];
    assert all[..|rest|] == rest && all[|rest|] == e;
    assert forall n | 0 <= n < |rest| :: all[..n] == rest[..n] && all[n] == rest[n];
    if n :| 0 <= n < |rest| && rest[n].Registered? && Uneventful(rest[..n]) && IsOpen(Run(c, reported + rest[..n])) {
      assert all[n].Registered? && Uneventful(all[..n]) && IsOpen(Run(c, reported + all[..n]));
    }
  }

  /** What has become of a report that could not be delivered at once: it is pending until a registration or another
      exit. */
  predicate Fate(c: Config, reported: seq<Event>, rest: seq<Event>, report: nat) {
    var s := Run(c, reported + rest);
    && report in Reports(reported + rest)
    && (Uneventful(rest) ==> !Live(s) && TimesPending(s, report) == 1 && !DeliveredLater(c, reported, rest))
    && (!Uneventful(rest) ==> TimesPending(s, report) == 0)
    && TimesSent(s.journal, report) == if DeliveredLater(c, reported, rest) then 1 else 0
  }

  lemma FateStep(c: Config, reported: seq<Event>, rest: seq<Event>, e: Event, report: nat)
    requires Possible(c, reported + rest) && Enabled(c, reported + rest, e) && Fate(c, reported, rest, report)
    ensures Fate(c, reported, rest + [e], report)
  {
    var before := reported + rest;
    assert reported + (rest + [e]) == before + [e] && Init(before + [e]) == before;
    RegisteredAfterOpening(c, before);
    if !e.Registered? {
      LiveOnlyByRegistration(c, before, e);
    }
    CountStep(c, Run(c, before), e, report);
    UneventfulSnoc(rest, e);
    DeliveredLaterSnoc(c, reported, rest, e);
  }

  lemma {:induction false} FateAlways(c: Config, reported: seq<Event>, rest: seq<Event>, report: nat)
    requires Possible(c, reported + rest) && Fate(c, reported, [], report)
    ensures Fate(c, reported, rest, report)
  {
    if rest != [] {
      var init := Init(rest);
      assert Init(reported + rest) == reported + init && rest == init + [Last(rest)];
      FateAlways(c, reported, init, report);
      FateStep(c, reported, init, Last(rest), report);
    }
  }

  /** A report just made: sent if it could be, else pending. */
  predicate JustReported(c: Config, before: seq<Event>, reported: seq<Event>, report: nat) {
    var s := Run(c, reported);
    && report in Reports(reported)
    && TimesSent(s.journal, report) == (if DeliveredAtOnce(c, before) then 1 else 0)
    && TimesPending(s, report) == (if DeliveredAtOnce(c, before) then 0 else 1)
    && (!DeliveredAtOnce(c, before) ==> !Live(s))
  }

  lemma ReportedNow(c: Config, before: seq<Event>, exit: Event)
    requires exit.Exit? && Possible(c, before + [exit])
    ensures JustReported(c, before, before + [exit], exit.exit.report)
  {
    assert Init(before + [exit]) == before;
    AtMostOnce(c, before, exit.exit.report);
    CountStep(c, Run(c, before), exit, exit.exit.report);
  }

  lemma FateBegins(c: Config, before: seq<Event>, reported: seq<Event>, report: nat)
    requires JustReported(c, before, reported, report) && !DeliveredAtOnce(c, before)
    ensures Fate(c, reported, [], report)
  {
    assert reported + [] == reported;
  }

  lemma ReportedThen(c: Config, before: seq<Event>, reported: seq<Event>, rest: seq<Event>, report: nat)
    requires Possible(c, reported + rest) && JustReported(c, before, reported, report)
    ensures TimesSent(Run(c, reported + rest).journal, report)
         == if DeliveredAtOnce(c, before) || DeliveredLater(c, reported, rest) then 1 else 0
  {
    if DeliveredAtOnce(c, before) {
      SettledForGood(c, reported, rest, report);
    } else {
      FateBegins(c, before, reported, report);
      FateAlways(c, reported, rest, report);
    }
  }

  /** In every run, whatever follows a report: it is sent exactly once when the connection was registered and open at
      the report, or when no other exit is reported before the next registration and that one is processed on an open
      socket. Otherwise it is not sent. */
  lemma ExitDelivery(c: Config, before: seq<Event>, exit: Event, rest: seq<Event>)
    requires exit.Exit? && Possible(c, before + [exit] + rest)
    ensures TimesSent(Run(c, before + [exit] + rest).journal, exit.exit.report)
         == if DeliveredAtOnce(c, before) || DeliveredLater(c, before + [exit], rest) then 1 else 0
  {
    var reported := before + [exit];
    PossiblePrefix(c, reported, rest);
    ReportedNow(c, before, exit);
    ReportedThen(c, before, reported, rest, exit.exit.report);
  }

  lemma RunSnoc(c: Config, events: seq<Event>, e: Event)
    ensures Run(c, events + [e]) == Next(c, Run(c, events), e)
    ensures Possible(c, events + [e]) <==> Possible(c, events) && Enabled(c, events, e)
    ensures Started(events + [e]) <==> e.Start? || Started(events)
    ensures Reports(events + [e]) == Reports(events) + (if e.Exit? then {e.exit.report} else {})
  {
    assert Init(events + [e]) == events;
  }

  /** The connection of the two failing runs: its socket is created, and opens. */
  const OPENING: seq<Event> := [Start(0, true), Opened(1)]

  lemma OpeningRun(c: Config)
    ensures Possible(c, OPENING) && Reports(OPENING) == {}
    ensures var s := Run(c, OPENING);
            s.ws == Some(Socket(0, Open)) && !s.registered && s.sessionToken == None && s.pendingChildExit == None
  {
    assert [] + [Start(0, true)] == [Start(0, true)] && [Start(0, true)] + [Opened(1)] == OPENING;
    RunSnoc(c, [], Start(0, true));
    RunSnoc(c, [Start(0, true)], Opened(1));
  }

  /** How an exit is dropped: the registration it waits for is processed when the socket is no longer open. */
  lemma DroppedExit(c: Config, exit: ChildExit, snapshot: A.Snapshot)
    ensures var events := OPENING + [Exit(2, exit)] + [LeavesOpen(3)] + [Registered(4, None, false, snapshot)];
            var s := Run(c, events);
            && Possible(c, events) && s.registered
            && TimesSent(s.journal, exit.report) == 0 && TimesPending(s, exit.report) == 0
  {
    var a := OPENING + [Exit(2, exit)];
    var b := a + [LeavesOpen(3)];
    OpeningRun(c);
    RunSnoc(c, OPENING, Exit(2, exit));
    RunSnoc(c, a, LeavesOpen(3));
    RunSnoc(c, b, Registered(4, None, false, snapshot));
    RegisteredFields(Run(c, b), None, false, snapshot);
    ReportedNow(c, OPENING, Exit(2, exit));
    CountStep(c, Run(c, a), LeavesOpen(3), exit.report);
    CountStep(c, Run(c, b), Registered(4, None, false, snapshot), exit.report);
  }

  /** How an exit is overwritten: a second one is reported before the registration, which delivers only that one. */
  lemma OverwrittenExit(c: Config, exit: ChildExit, other: ChildExit, snapshot: A.Snapshot)
    requires exit.report != other.report
    ensures var events := OPENING + [Exit(2, exit)] + [Exit(3, other)] + [Registered(4, None, false, snapshot)];
            var s := Run(c, events);
            && Possible(c, events)
            && TimesSent(s.journal, exit.report) == 0 && TimesPending(s, exit.report) == 0
            && TimesSent(s.journal, other.report) == 1
  {
    var a := OPENING + [Exit(2, exit)];
    var b := a + [Exit(3, other)];
    var registration := Registered(4, None, false, snapshot);
    OpeningRun(c);
    RunSnoc(c, OPENING, Exit(2, exit));
    RunSnoc(c, a, Exit(3, other));
    RunSnoc(c, b, registration);
    ReportedNow(c, OPENING, Exit(2, exit));
    ReportedNow(c, a, Exit(3, other));
    CountStep(c, Run(c, a), Exit(3, other), exit.report);
    CountStep(c, Run(c, b), registration, exit.report);
    CountStep(c, Run(c, b), registration, other.report);
  }
}
