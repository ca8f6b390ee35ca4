/** The activity of a wrapped agent, decided by screen, title or output volume
    (packages/tui-supervisor/src/ActivityTracker.ts). Every operation carries the clock reading at which it happens. */
module ActivityTracker {
  import opened Options
  import opened AgentTitles

  datatype Config = Config(
    windowMs: nat, activeThresholdBytes: nat, idleAfterMs: nat, tickMs: nat, resizeGraceMs: nat, inputGraceMs: nat)

  const ACTIVE_RESEND_MS := 15000
  const ACTIVE_CONSECUTIVE_TICKS := 2
  const IDLE_RECHECK_MS := 100
  const IDLE_CONFIRMATIONS := 3
  const IDLE_HOLD_CAP_MS := 700

  datatype Activity = Active | Inactive
  datatype Status = StatusWorking | StatusBlocked
  datatype DecidedBy = Screen | Title | Bytes

  datatype Sample = Sample(ts: int, bytes: nat)

  /** A 'transition' notification, with the time at which it is emitted. */
  datatype Transition = Transition(at: int, state: Activity, bytesInWindow: nat, status: Option<Status>,
                                   decidedBy: DecidedBy)

  datatype State = State(
    samples: seq<Sample>, state: Activity, lastAboveThresholdTs: int, lastActiveEmitTs: int,
    resizeGraceUntil: int, inputGraceUntil: int, ticking: bool,
    titleState: PaneState, titleAuthoritative: bool, aboveStreak: nat, freshBytes: bool,
    emittedStatus: Option<Status>, emittedDecidedBy: Option<DecidedBy>,
    screenState: PaneState, idleHoldStart: Option<int>, idleHoldCount: nat, idleHoldTimer: Option<int>)

  const INITIAL := State([], Inactive, 0, 0, 0, 0, false, Unknown, false, 0, false, None, None, Unknown, None, 0, None)

  datatype Outcome = Outcome(state: State, emitted: Option<Transition>)

  // ---- The sliding window ----

  function Since(samples: seq<Sample>, cutoff: int): seq<Sample> {
    if samples == [] then [] else
      var before := Since(samples[..|samples| - 1], cutoff);
      var last := samples[|samples| - 1];
      if last.ts >= cutoff then before + [last] else before
  }

  function Total(samples: seq<Sample>): nat {
    if samples == [] then 0 else Total(samples[..|samples| - 1]) + samples[|samples| - 1].bytes
  }

  function WindowSum(c: Config, samples: seq<Sample>, now: int): nat {
    Total(Since(samples, now - c.windowMs))
  }

  // ---- The rungs ----

  predicate Engaged(p: PaneState) {
    p == Working || p == Blocked
  }

  predicate Resting(p: PaneState) {
    p == Idle || p == Error
  }

  datatype Decision = ByScreen(pane: PaneState) | ByTitle(pane: PaneState) | ByBytes

  /** The first rung that has an opinion. */
  function Decide(s: State): Decision {
    if s.screenState != Unknown then ByScreen(s.screenState)
    else if s.titleAuthoritative || Engaged(s.titleState) then ByTitle(s.titleState)
    else ByBytes
  }

  function ResetIdleHold(s: State): State {
    s.(idleHoldStart := None, idleHoldCount := 0, idleHoldTimer := None)
  }

  /** Another idle reading while the hold is open: enough of them, or enough time, ends the hold. */
  predicate HoldEnds(s: State, now: int) {
    s.idleHoldStart.Some?
    && (s.idleHoldCount + 1 >= IDLE_CONFIRMATIONS || now - s.idleHoldStart.value >= IDLE_HOLD_CAP_MS)
  }

  function HoldIdle(s: State, now: int): State {
    if s.idleHoldStart.None? then
      s.(idleHoldStart := Some(now), idleHoldCount := 1, idleHoldTimer := Some(now + IDLE_RECHECK_MS))
    else if HoldEnds(s, now) then ResetIdleHold(s)
    else s.(idleHoldCount := s.idleHoldCount + 1, idleHoldTimer := Some(now + IDLE_RECHECK_MS))
  }

  function StatusOf(p: PaneState): Option<Status> {
    if p == Working then Some(StatusWorking) else if p == Blocked then Some(StatusBlocked) else None
  }

  function Publish(s: State, now: int, sum: nat, desired: Activity, status: Option<Status>, rung: DecidedBy): Outcome {
    var shown := if desired == Active then status else None;
    if desired != s.state || (desired == Active && status != s.emittedStatus) || s.emittedDecidedBy != Some(rung) then
      Outcome(s.(state := desired, emittedStatus := shown, emittedDecidedBy := Some(rung), lastActiveEmitTs := now),
              Some(Transition(now, desired, sum, shown, rung)))
    else if s.state == Active && now - s.lastActiveEmitTs >= ACTIVE_RESEND_MS then
      Outcome(s.(lastActiveEmitTs := now), Some(Transition(now, Active, sum, s.emittedStatus, rung)))
    else Outcome(s, None)
  }

  function Apply(s: State, now: int, sum: nat, p: PaneState, rung: DecidedBy): Outcome {
    var desired := if Resting(p) then Inactive else Active;
    if desired == Inactive && s.state == Active && rung == Screen then
      if HoldEnds(s, now) then Publish(HoldIdle(s, now), now, sum, desired, StatusOf(p), rung)
      else Outcome(HoldIdle(s, now), None)
    else Publish(ResetIdleHold(s), now, sum, desired, StatusOf(p), rung)
  }

  predicate IsAbove(c: Config, s: State, sum: nat) {
    sum >= c.activeThresholdBytes && s.freshBytes
  }

  function BytesRung(c: Config, s: State, now: int, sum: nat): Outcome {
    var above := IsAbove(c, s, sum);
    var streak := if above then s.aboveStreak + 1 else 0;
    var t := s.(freshBytes := false, aboveStreak := streak,
                lastAboveThresholdTs := if above then now else s.lastAboveThresholdTs);
    if t.state == Inactive then
      if streak >= ACTIVE_CONSECUTIVE_TICKS then
        Outcome(t.(state := Active, emittedDecidedBy := Some(Bytes), lastActiveEmitTs := now),
                Some(Transition(now, Active, sum, None, Bytes)))
      else Outcome(t, None)
    else if !above && now - t.lastAboveThresholdTs >= c.idleAfterMs then
      Outcome(t.(state := Inactive, emittedDecidedBy := Some(Bytes)), Some(Transition(now, Inactive, sum, None, Bytes)))
    else if now - t.lastActiveEmitTs >= ACTIVE_RESEND_MS then
      Outcome(t.(lastActiveEmitTs := now), Some(Transition(now, Active, sum, None, Bytes)))
    else Outcome(t, None)
  }

  function CombinedMode(c: Config, s: State, now: int, sum: nat): Outcome {
    if Engaged(s.titleState) then Apply(s.(titleAuthoritative := true), now, sum, s.titleState, Title)
    else BytesRung(c, s, now, sum)
  }

  function RunLadder(c: Config, s: State, now: int, sum: nat): Outcome {
    match Decide(s)
    case ByScreen(p) => Apply(s, now, sum, p, Screen)
    case ByTitle(p) => Apply(if Engaged(p) then s.(titleAuthoritative := true) else s, now, sum, p, Title)
    case ByBytes => CombinedMode(c, s, now, sum)
  }

  // ---- Events ----

  datatype Event =
    | Input(ts: int)
    | Resize(ts: int)
    | TitleState(ts: int, title: PaneState)
    | ScreenState(ts: int, screen: PaneState)
    | Record(ts: int, bytes: nat)
    | Tick(ts: int)
    | Recheck(ts: int)
    | Start(ts: int)
    | Stop(ts: int)

  predicate InGrace(s: State, now: int) {
    now < s.resizeGraceUntil || now < s.inputGraceUntil
  }

  /** The state in which an event finds the ladder, when it climbs it at all. */
  function Prepared(c: Config, s: State, e: Event): State {
    match e
    case ScreenState(_, p) => s.(screenState := p)
    case Tick(now) => s.(samples := Since(s.samples, now - c.windowMs))
    case Recheck(_) => s.(idleHoldTimer := None)
    case _ => s
  }

  predicate Evaluates(e: Event) {
    e.ScreenState? || e.Tick? || e.Recheck?
  }

  function Next(c: Config, s: State, e: Event): Outcome {
    match e
    case Input(now) => Outcome(s.(inputGraceUntil := now + c.inputGraceMs), None)
    case Resize(now) => Outcome(s.(resizeGraceUntil := now + c.resizeGraceMs), None)
    case TitleState(_, p) =>
      Outcome(if p == Unknown then s
              else s.(titleState := p, titleAuthoritative := s.titleAuthoritative || Engaged(p)), None)
    case Record(now, bytes) =>
      Outcome(if InGrace(s, now) then s else s.(samples := s.samples + [Sample(now, bytes)], freshBytes := true), None)
    case Start(_) => Outcome(s.(ticking := true), None)
    case Stop(_) => Outcome(s.(ticking := false, idleHoldTimer := None), None)
    case _ =>
      var t := Prepared(c, s, e);
      RunLadder(c, t, e.ts, WindowSum(c, t.samples, e.ts))
  }

  datatype Snapshot = Snapshot(state: Activity, bytesInWindow: nat, status: Option<Status>,
                               decidedBy: Option<DecidedBy>)

  function SnapshotOf(c: Config, s: State, now: int): Snapshot {
    Snapshot(s.state, WindowSum(c, s.samples, now), s.emittedStatus, s.emittedDecidedBy)
  }

  /** The tracker as an object. A method returns the notification it emits, if any. */
  class Tracker {
    const config: Config
    var samples: seq<Sample>
    var state: Activity
    var lastAboveThresholdTs: int
    var lastActiveEmitTs: int
    var resizeGraceUntil: int
    var inputGraceUntil: int
    var ticking: bool
    var titleState: PaneState
    var titleAuthoritative: bool
    var aboveStreak: nat
    var freshBytes: bool
    var emittedStatus: Option<Status>
    var emittedDecidedBy: Option<DecidedBy>
    var screenState: PaneState
    var idleHoldStart: Option<int>
    var idleHoldCount: nat
    var idleHoldTimer: Option<int>

    function Value(): State
      reads this
    {
      State(samples, state, lastAboveThresholdTs, lastActiveEmitTs, resizeGraceUntil, inputGraceUntil, ticking,
            titleState, titleAuthoritative, aboveStreak, freshBytes, emittedStatus, emittedDecidedBy,
            screenState, idleHoldStart, idleHoldCount, idleHoldTimer)
    }

    constructor (config: Config)
      ensures this.config == config && Value() == INITIAL
    {
      this.config := config;
      samples, state, lastAboveThresholdTs, lastActiveEmitTs := [], Inactive, 0, 0;
      resizeGraceUntil, inputGraceUntil, ticking := 0, 0, false;
      titleState, titleAuthoritative, aboveStreak, freshBytes := Unknown, false, 0, false;
      emittedStatus, emittedDecidedBy, screenState := None, None, Unknown;
      idleHoldStart, idleHoldCount, idleHoldTimer := None, 0, None;
    }

    method NotifyInput(now: int)
      modifies this
      ensures Value() == Next(config, old(Value()), Input(now)).state
    {
      inputGraceUntil := now + config.inputGraceMs;
    }

    method NotifyResize(now: int)
      modifies this
      ensures Value() == Next(config, old(Value()), Resize(now)).state
    {
      resizeGraceUntil := now + config.resizeGraceMs;
    }

    method SetTitleState(now: int, p: PaneState)
      modifies this
      ensures Value() == Next(config, old(Value()), TitleState(now, p)).state
    {
      if p == Unknown { return; }
      titleState := p;
      if p == Working || p == Blocked {
        titleAuthoritative := true;
      }
    }

    method SetScreenState(now: int, p: PaneState) returns (emitted: Option<Transition>)
      modifies this
      ensures Outcome(Value(), emitted) == Next(config, old(Value()), ScreenState(now, p))
    {
      screenState := p;
      emitted := EvaluateNow(now);
    }

    method StartTicking(now: int)
      modifies this
      ensures Value() == Next(config, old(Value()), Start(now)).state
    {
      if ticking { return; }
      ticking := true;
    }

    method StopTicking(now: int)
      modifies this
      ensures Value() == Next(config, old(Value()), Stop(now)).state
    {
      ticking := false;
      idleHoldTimer := None;
    }

    method RecordOutput(now: int, bytes: nat)
      modifies this
      ensures Value() == Next(config, old(Value()), Record(now, bytes)).state
    {
      if now < resizeGraceUntil { return; }
      if now < inputGraceUntil { return; }
      samples := samples + [Sample(now, bytes)];
      freshBytes := true;
    }

    method GetSnapshot(now: int) returns (r: Snapshot)
      ensures r == SnapshotOf(config, Value(), now)
    {
      var sum := SumSince(samples, now - config.windowMs);
      r := Snapshot(state, sum, emittedStatus, emittedDecidedBy);
    }

    /** filter then reduce. */
    method SumSince(all: seq<Sample>, cutoff: int) returns (sum: nat)
      ensures sum == Total(Since(all, cutoff))
    {
      sum := 0;
      for i := 0 to |all|
        invariant sum == Total(Since(all[..i], cutoff))
      {
        assert all[..i + 1][..i] == all[..i];
        var kept := Since(all[..i], cutoff);
        assert (kept + [all[i]])[..|kept|] == kept;
        if all[i].ts >= cutoff {
          sum := sum + all[i].bytes;
        }
      }
      assert all[..|all|] == all;
    }

    method EvaluateNow(now: int) returns (emitted: Option<Transition>)
      modifies this
      ensures Outcome(Value(), emitted) == RunLadder(config, old(Value()), now, WindowSum(config, old(samples), now))
    {
      ghost var before := Value();
      var sum := SumSince(samples, now - config.windowMs);
      assert Value() == before;
      emitted := Ladder(now, sum);
    }

    /** The interval timer. */
    method OnTick(now: int) returns (emitted: Option<Transition>)
      modifies this
      ensures Outcome(Value(), emitted) == Next(config, old(Value()), Tick(now))
    {
      samples := Since(samples, now - config.windowMs);
      ghost var pruned := Value();
      assert pruned == Prepared(config, old(Value()), Tick(now));
      var sum := SumSince(samples, now - config.windowMs);
      assert Value() == pruned;
      emitted := Ladder(now, sum);
    }

    /** The idle-hold timer. */
    method OnRecheck(now: int) returns (emitted: Option<Transition>)
      modifies this
      ensures Outcome(Value(), emitted) == Next(config, old(Value()), Recheck(now))
    {
      idleHoldTimer := None;
      assert Value() == Prepared(config, old(Value()), Recheck(now));
      emitted := EvaluateNow(now);
    }

    method Ladder(now: int, sum: nat) returns (emitted: Option<Transition>)
      modifies this
      ensures Outcome(Value(), emitted) == RunLadder(config, old(Value()), now, sum)
    {
      if screenState != Unknown {
        emitted := ApplyClassified(now, sum, screenState, Screen);
        return;
      }
      if titleAuthoritative || titleState == Working || titleState == Blocked {
        if titleState == Working || titleState == Blocked {
          titleAuthoritative := true;
        }
        emitted := ApplyClassified(now, sum, titleState, Title);
        return;
      }
      emitted := TickCombinedMode(now, sum);
    }

    method ApplyClassified(now: int, sum: nat, p: PaneState, rung: DecidedBy) returns (emitted: Option<Transition>)
      modifies this
      ensures Outcome(Value(), emitted) == Apply(old(Value()), now, sum, p, rung)
    {
      var desired := if p == Idle || p == Error then Inactive else Active;
      var status := StatusOf(p);
      if desired == Inactive && state == Active && rung == Screen {
        var confirmed := HoldForConfirmation(now);
        if !confirmed { return None; }
      } else {
        ClearIdleHold();
      }
      emitted := EmitIfChanged(now, sum, desired, status, rung);
    }

    method EmitIfChanged(now: int, sum: nat, desired: Activity, status: Option<Status>, rung: DecidedBy)
      returns (emitted: Option<Transition>)
      modifies this
      ensures Outcome(Value(), emitted) == Publish(old(Value()), now, sum, desired, status, rung)
    {
      if desired != state || (desired == Active && status != emittedStatus) || Some(rung) != emittedDecidedBy {
        state := desired;
        emittedStatus := if desired == Active then status else None;
        emittedDecidedBy := Some(rung);
        lastActiveEmitTs := now;
        return Some(Transition(now, desired, sum, emittedStatus, rung));
      }
      if state == Active && now - lastActiveEmitTs >= ACTIVE_RESEND_MS {
        lastActiveEmitTs := now;
        return Some(Transition(now, Active, sum, emittedStatus, rung));
      }
      return None;
    }

    method HoldForConfirmation(now: int) returns (confirmed: bool)
      modifies this
      ensures Value() == HoldIdle(old(Value()), now) && confirmed == HoldEnds(old(Value()), now)
    {
      if idleHoldStart == None {
        idleHoldStart := Some(now);
        idleHoldCount := 1;
        idleHoldTimer := Some(now + IDLE_RECHECK_MS);
        return false;
      }
      idleHoldCount := idleHoldCount + 1;
      if idleHoldCount >= IDLE_CONFIRMATIONS || now - idleHoldStart.value >= IDLE_HOLD_CAP_MS {
        ClearIdleHold();
        return true;
      }
      idleHoldTimer := Some(now + IDLE_RECHECK_MS);
      return false;
    }

    method ClearIdleHold()
      modifies this
      ensures Value() == ResetIdleHold(old(Value()))
    {
      idleHoldStart, idleHoldCount, idleHoldTimer := None, 0, None;
    }

    method TickCombinedMode(now: int, sum: nat) returns (emitted: Option<Transition>)
      modifies this
      ensures Outcome(Value(), emitted) == CombinedMode(config, old(Value()), now, sum)
    {
      if titleState == Working || titleState == Blocked {
        titleAuthoritative := true;
        emitted := ApplyClassified(now, sum, titleState, Title);
        return;
      }
      emitted := TickBytes(now, sum);
    }

    /** The byte heuristic itself. */
    method TickBytes(now: int, sum: nat) returns (emitted: Option<Transition>)
      modifies this
      ensures Outcome(Value(), emitted) == BytesRung(config, old(Value()), now, sum)
    {
      var above := sum >= config.activeThresholdBytes && freshBytes;
      freshBytes := false;
      aboveStreak := if above then aboveStreak + 1 else 0;
      if above {
        lastAboveThresholdTs := now;
      }
      if state == Inactive {
        if aboveStreak >= ACTIVE_CONSECUTIVE_TICKS {
          state := Active;
          emittedDecidedBy := Some(Bytes);
          lastActiveEmitTs := now;
          return Some(Transition(now, Active, sum, None, Bytes));
        }
        return None;
      }
      if !above && now - lastAboveThresholdTs >= config.idleAfterMs {
        state := Inactive;
        emittedDecidedBy := Some(Bytes);
        return Some(Transition(now, Inactive, sum, None, Bytes));
      } else if now - lastActiveEmitTs >= ACTIVE_RESEND_MS {
        lastActiveEmitTs := now;
        return Some(Transition(now, Active, sum, None, Bytes));
      }
      return None;
    }
  }

  /** Pruning first changes nothing for a later cutoff. */
  lemma {:induction false} SinceTwice(samples: seq<Sample>, earlier: int, cutoff: int)
    requires earlier <= cutoff
    ensures Since(Since(samples, earlier), cutoff) == Since(samples, cutoff)
  {
    if samples != [] {
      var init, x := samples[..|samples| - 1], samples[|samples| - 1];
      SinceTwice(init, earlier, cutoff);
      var kept := Since(init, earlier);
      assert (kept + [x])[..|kept|] == kept;
    }
  }
}
