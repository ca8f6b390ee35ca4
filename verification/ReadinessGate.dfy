/** The latch "the child has finished booting" (packages/tui-supervisor/src/ReadinessGate.ts). Time is explicit: every
    event carries the clock reading at which it happens, and a timer is the time at which it is due. */
module ReadinessGate {
  import opened Options
  import opened Runs

  datatype Config = Config(quietMs: nat, minOutputBytes: nat, maxWaitMs: nat, fallbackQuietMs: nat)

  /** A caller of waitUntilReady. */
  datatype Waiter = Waiter(id: nat, calledAt: int, deadline: int)
  datatype Resolution = Resolution(id: nat, calledAt: int, at: int)

  datatype State = State(
    ready: bool, totalBytes: nat, quietTimer: Option<int>, fallbackTimer: Option<int>,
    waiters: seq<Waiter>, resolved: seq<Resolution>, listeners: seq<nat>, fired: seq<nat>, latchedAt: Option<int>)

  const INITIAL := State(false, 0, None, None, [], [], [], [], None)

  function Resolve(waiters: seq<Waiter>, now: int): seq<Resolution> {
    seq(|waiters|, i requires 0 <= i < |waiters| => Resolution(waiters[i].id, waiters[i].calledAt, now))
  }

  function MarkReady(s: State, now: int): State {
    s.(ready := true, quietTimer := None, fallbackTimer := None,
       waiters := [], resolved := s.resolved + Resolve(s.waiters, now),
       listeners := [], fired := s.fired + s.listeners, latchedAt := Some(now))
  }

  datatype Event =
    | Output(ts: int, bytes: nat)
    | QuietTimer(ts: int)
    | FallbackTimer(ts: int)
    | Wait(ts: int, id: nat)
    | WaitTimeout(ts: int, place: nat)
    | Listen(ts: int, listener: nat)

  function Next(c: Config, s: State, e: Event): State {
    match e
    case Output(now, bytes) =>
      if s.ready then s
      else s.(totalBytes := s.totalBytes + bytes,
              quietTimer := Some(now + c.quietMs), fallbackTimer := Some(now + c.fallbackQuietMs))
    case QuietTimer(now) =>
      if s.totalBytes >= c.minOutputBytes then MarkReady(s, now) else s.(quietTimer := None)
    case FallbackTimer(now) => MarkReady(s, now)
    case Wait(now, id) =>
      if s.ready then s.(resolved := s.resolved + [Resolution(id, now, now)])
      else s.(waiters := s.waiters + [Waiter(id, now, now + c.maxWaitMs)])
    case WaitTimeout(now, k) =>
      if k < |s.waiters| then
        s.(waiters := s.waiters[..k] + s.waiters[k + 1..],
           resolved := s.resolved + [Resolution(s.waiters[k].id, s.waiters[k].calledAt, now)])
      else s
    case Listen(now, listener) =>
      if s.ready then s.(fired := s.fired + [listener]) else s.(listeners := s.listeners + [listener])
  }

  class Gate {
    const config: Config
    var ready: bool
    var totalBytes: nat
    var quietTimer: Option<int>
    var fallbackTimer: Option<int>
    var waiters: seq<Waiter>
    var resolved: seq<Resolution>
    var listeners: seq<nat>
    var fired: seq<nat>
    ghost var latchedAt: Option<int>

    ghost function Value(): State
      reads this
    {
      State(ready, totalBytes, quietTimer, fallbackTimer, waiters, resolved, listeners, fired, latchedAt)
    }

    constructor (config: Config)
      ensures this.config == config && Value() == INITIAL
    {
      this.config := config;
      ready, totalBytes, quietTimer, fallbackTimer := false, 0, None, None;
      waiters, resolved, listeners, fired, latchedAt := [], [], [], [], None;
    }

    method NotifyOutput(now: int, bytes: nat)
      modifies this
      ensures Value() == Next(config, old(Value()), Output(now, bytes))
    {
      if ready { return; }
      totalBytes := totalBytes + bytes;
      quietTimer := Some(now + config.quietMs);
      fallbackTimer := Some(now + config.fallbackQuietMs);
    }

    /** The quiet timer fires. */
    method OnQuiet(now: int)
      modifies this
      ensures Value() == Next(config, old(Value()), QuietTimer(now))
    {
      quietTimer := None;
      if totalBytes >= config.minOutputBytes {
        LatchReady(now);
      }
    }

    /** The fallback timer fires. */
    method OnFallback(now: int)
      modifies this
      ensures Value() == Next(config, old(Value()), FallbackTimer(now))
    {
      LatchReady(now);
    }

    method WaitUntilReady(now: int, id: nat)
      modifies this
      ensures Value() == Next(config, old(Value()), Wait(now, id))
    {
      if ready {
        resolved := resolved + [Resolution(id, now, now)];
        return;
      }
      waiters := waiters + [Waiter(id, now, now + config.maxWaitMs)];
    }

    /** The timeout of one waiter fires: that waiter is filtered out and resolved. */
    method OnWaitTimeout(now: int, place: nat)
      requires place < |waiters|
      modifies this
      ensures Value() == Next(config, old(Value()), WaitTimeout(now, place))
    {
      var w := waiters[place];
      waiters := waiters[..place] + waiters[place + 1..];
      resolved := resolved + [Resolution(w.id, w.calledAt, now)];
    }

    method OnReady(now: int, listener: nat)
      modifies this
      ensures Value() == Next(config, old(Value()), Listen(now, listener))
    {
      if ready {
        fired := fired + [listener];
        return;
      }
      listeners := listeners + [listener];
    }

    method LatchReady(now: int)
      modifies this
      ensures Value() == MarkReady(old(Value()), now)
    {
      ready, latchedAt := true, Some(now);
      quietTimer, fallbackTimer := None, None;
      var toResolve := waiters;
      waiters := [];
      for i := 0 to |toResolve|
        invariant resolved == old(resolved) + Resolve(toResolve[..i], now)
        invariant ready && quietTimer == None && fallbackTimer == None && waiters == []
        invariant totalBytes == old(totalBytes) && listeners == old(listeners) && fired == old(fired)
                  && latchedAt == Some(now)
      {
        assert Resolve(toResolve[..i + 1], now)
               == Resolve(toResolve[..i], now) + [Resolution(toResolve[i].id, toResolve[i].calledAt, now)];
        resolved := resolved + [Resolution(toResolve[i].id, toResolve[i].calledAt, now)];
      }
      assert toResolve[..|toResolve|] == toResolve;
      var toFire := listeners;
      listeners := [];
      fired := fired + toFire;
    }
  }

  // ---- Runs ----

  function Run(c: Config, events: seq<Event>): State {
    if events == [] then INITIAL else Next(c, Run(c, events[..|events| - 1]), events[|events| - 1])
  }

  function WaiterIds(waiters: seq<Waiter>): multiset<nat> {
    if waiters == [] then multiset{} else WaiterIds(waiters[..|waiters| - 1]) + multiset{waiters[|waiters| - 1].id}
  }

  function ResolvedIds(resolved: seq<Resolution>): multiset<nat> {
    if resolved == [] then multiset{}
    else ResolvedIds(resolved[..|resolved| - 1]) + multiset{resolved[|resolved| - 1].id}
  }

  predicate TimerArmed(timer: Option<int>, now: int) {
    timer.Some? && timer.value <= now
  }

  /** What may happen in a state: a timer fires only when it is armed and due, and every call to wait is a new one. */
  predicate Enabled(s: State, e: Event) {
    match e
    case QuietTimer(now) => TimerArmed(s.quietTimer, now)
    case FallbackTimer(now) => TimerArmed(s.fallbackTimer, now)
    case Wait(now, id) => id !in WaiterIds(s.waiters) && id !in ResolvedIds(s.resolved)
    case WaitTimeout(now, k) => k < |s.waiters| && s.waiters[k].deadline <= now
    case _ => true
  }

  /** Nothing has been left waiting past the time it is due, and outputs come after the timers due with them. */
  predicate OnTime(s: State, e: Event) {
    && (s.quietTimer.Some? ==>
          if e.QuietTimer? then e.ts == s.quietTimer.value
          else e.ts <= s.quietTimer.value && (e.Output? ==> e.ts < s.quietTimer.value))
    && (s.fallbackTimer.Some? ==> e.ts <= s.fallbackTimer.value && (e.Output? ==> e.ts < s.fallbackTimer.value))
    && (forall i | 0 <= i < |s.waiters| :: e.ts <= s.waiters[i].deadline)
  }

  /** A run: the clock never goes back, and timers fire only when armed and due. */
  predicate Possible(c: Config, events: seq<Event>) {
    events == [] ||
    (Possible(c, Init(events)) && Enabled(Run(c, Init(events)), Last(events))
     && (|events| > 1 ==> Last(Init(events)).ts <= Last(events).ts))
  }

  /** A run in which every timer fires when it is due. */
  predicate Punctual(c: Config, events: seq<Event>) {
    events == [] ||
    (Punctual(c, Init(events)) && Enabled(Run(c, Init(events)), Last(events))
     && OnTime(Run(c, Init(events)), Last(events))
     && (|events| > 1 ==> Last(Init(events)).ts <= Last(events).ts))
  }

  lemma {:induction false} PunctualIsPossible(c: Config, events: seq<Event>)
    requires Punctual(c, events)
    ensures Possible(c, events)
  {
    if events != [] {
      PunctualIsPossible(c, Init(events));
    }
  }

  // ---- The latch ----

  predicate Latched(s: State) {
    && (s.ready ==> s.quietTimer == None && s.fallbackTimer == None && s.waiters == [] && s.listeners == [])
    && (s.ready <==> s.latchedAt.Some?)
    && (!s.ready ==> s.fired == [])
  }

  lemma LatchedStep(c: Config, s: State, e: Event)
    requires Latched(s) && Enabled(s, e)
    ensures Latched(Next(c, s, e))
    ensures s.ready ==> Next(c, s, e).ready && Next(c, s, e).latchedAt == s.latchedAt
  {
    if s.ready && e.WaitTimeout? {
      assert false;
    }
  }

  /** In every run: once ready, no quiet or fallback timer, waiter or unfired listener is left. */
  lemma {:induction false} AlwaysLatched(c: Config, events: seq<Event>)
    requires Possible(c, events)
    ensures Latched(Run(c, events))
  {
    if events != [] {
      AlwaysLatched(c, Init(events));
      LatchedStep(c, Run(c, Init(events)), Last(events));
    }
  }

  /** The listeners, in the order in which they were registered. */
  function ListenersOf(events: seq<Event>): seq<nat> {
    if events == [] then []
    else ListenersOf(Init(events)) + (if Last(events).Listen? then [Last(events).listener] else [])
  }

  lemma ListenersStep(c: Config, s: State, e: Event)
    requires Latched(s)
    ensures var t, all := Next(c, s, e), s.fired + s.listeners + (if e.Listen? then [e.listener] else []);
            if t.ready then t.fired == all && t.listeners == [] else t.fired == [] && t.listeners == all
  {
  }

  /** In every possible run each listener fires exactly once and in order once the gate has latched, and none before. */
  lemma {:induction false} ListenersFireOnce(c: Config, events: seq<Event>)
    requires Possible(c, events)
    ensures var s := Run(c, events);
            && s.fired == (if s.ready then ListenersOf(events) else [])
            && s.listeners == (if s.ready then [] else ListenersOf(events))
  {
    if events != [] {
      AlwaysLatched(c, Init(events));
      ListenersFireOnce(c, Init(events));
      ListenersStep(c, Run(c, Init(events)), Last(events));
    }
  }

  /** Readiness is for ever, and so is the time it began. */
  lemma {:induction false} ReadyForEver(c: Config, events: seq<Event>, n: nat)
    requires Possible(c, events) && n <= |events| && Run(c, events[..n]).ready
    ensures Run(c, events).ready && Run(c, events).latchedAt == Run(c, events[..n]).latchedAt
    decreases |events|
  {
    if n == |events| {
      assert events[..n] == events;
    } else {
      assert Init(events)[..n] == events[..n];
      ReadyForEver(c, Init(events), n);
      AlwaysLatched(c, Init(events));
      LatchedStep(c, Run(c, Init(events)), Last(events));
    }
  }

  // ---- When the gate opens ----

  /** The outputs of a run. */
  function Outputs(events: seq<Event>): seq<Event> {
    if events == [] then []
    else Outputs(Init(events)) + (if Last(events).Output? then [Last(events)] else [])
  }

  function TotalOf(outputs: seq<Event>): nat {
    if outputs == [] then 0
    else TotalOf(Init(outputs)) + (if Last(outputs).Output? then Last(outputs).bytes else 0)
  }

  /** How long the child had been silent after output i, by time t. */
  function Silence(outputs: seq<Event>, i: nat, t: int): int
    requires i < |outputs|
  {
    (if i + 1 < |outputs| then outputs[i + 1].ts else t) - outputs[i].ts
  }

  /** Output i was followed by a long enough silence: the quiet period once enough had been drawn, or the fallback. */
  predicate Settled(c: Config, outputs: seq<Event>, i: nat, t: int)
    requires i < |outputs|
  {
    || (TotalOf(outputs[..i + 1]) >= c.minOutputBytes && Silence(outputs, i, t) >= c.quietMs)
    || Silence(outputs, i, t) >= c.fallbackQuietMs
  }

  /** The reference: what "booted" means, without timers. */
  predicate Booted(c: Config, outputs: seq<Event>, t: int) {
    exists i | 0 <= i < |outputs| :: Settled(c, outputs, i, t)
  }

  lemma BootedLater(c: Config, outputs: seq<Event>, t: int, u: int)
    requires Booted(c, outputs, t) && t <= u
    ensures Booted(c, outputs, u)
  {
    var i :| 0 <= i < |outputs| && Settled(c, outputs, i, t);
    assert Settled(c, outputs, i, u);
  }

  /** What the timers of an unlatched gate say about the outputs so far. */
  predicate Armed(c: Config, s: State, outputs: seq<Event>) {
    && s.totalBytes == TotalOf(outputs)
    && (outputs == [] ==> s.quietTimer == None && s.fallbackTimer == None)
    && (outputs != [] ==>
        && s.fallbackTimer == Some(Last(outputs).ts + c.fallbackQuietMs)
        && (s.quietTimer == Some(Last(outputs).ts + c.quietMs)
            || (s.quietTimer == None && s.totalBytes < c.minOutputBytes)))
  }

  /** Moreover, when timers are on time: no output but the last was followed by a long enough silence. */
  predicate Tracking(c: Config, s: State, outputs: seq<Event>, now: int) {
    Armed(c, s, outputs) && forall i | 0 <= i < |outputs| - 1 :: !Settled(c, outputs, i, now)
  }

  predicate GateInvariant(c: Config, s: State, outputs: seq<Event>, now: int) {
    && Latched(s)
    && (if s.ready then Booted(c, outputs, now) else Tracking(c, s, outputs, now))
  }

  function WithEvent(outputs: seq<Event>, e: Event): seq<Event> {
    outputs + (if e.Output? then [e] else [])
  }

  lemma LatchBooted(c: Config, s: State, outputs: seq<Event>, e: Event)
    requires !s.ready && Armed(c, s, outputs) && Enabled(s, e)
    requires e.QuietTimer? || e.FallbackTimer?
    requires Next(c, s, e).ready
    ensures Booted(c, outputs, e.ts)
  {
    var i := |outputs| - 1;
    assert outputs[..i + 1] == outputs;
    assert Settled(c, outputs, i, e.ts);
  }

  // ---- Readiness is never premature, however late the timers ----

  predicate BootInvariant(c: Config, s: State, outputs: seq<Event>, now: int) {
    && Latched(s)
    && (if s.ready then Booted(c, outputs, now) else Armed(c, s, outputs))
  }

  lemma ArmedOutput(c: Config, s: State, outputs: seq<Event>, e: Event)
    requires !s.ready && Armed(c, s, outputs) && e.Output?
    ensures Armed(c, Next(c, s, e), outputs + [e])
  {
    var after := outputs + [e];
    assert Init(after) == outputs && Last(after) == e;
  }

  lemma BootStep(c: Config, s: State, outputs: seq<Event>, now: int, e: Event)
    requires BootInvariant(c, s, outputs, now) && Enabled(s, e) && now <= e.ts
    ensures BootInvariant(c, Next(c, s, e), WithEvent(outputs, e), e.ts)
  {
    LatchedStep(c, s, e);
    if s.ready {
      BootedWithEvent(c, outputs, now, e);
    } else if e.Output? {
      ArmedOutput(c, s, outputs, e);
    } else {
      assert WithEvent(outputs, e) == outputs;
      if Next(c, s, e).ready {
        LatchBooted(c, s, outputs, e);
      }
    }
  }

  /** In every run, late timers or not: the gate is ready only after a long enough silence. */
  lemma {:induction false} ReadyMeansBooted(c: Config, events: seq<Event>)
    requires Possible(c, events) && events != []
    ensures BootInvariant(c, Run(c, events), Outputs(events), Last(events).ts)
  {
    var before, e := Init(events), Last(events);
    if before == [] {
      BootStep(c, INITIAL, [], e.ts, e);
    } else {
      ReadyMeansBooted(c, before);
      BootStep(c, Run(c, before), Outputs(before), Last(before).ts, e);
    }
  }

  /** The event fires a timer that latches: the fallback, or the quiet timer once enough has been drawn. */
  predicate FiresLatch(c: Config, before: seq<Event>, e: Event) {
    e.FallbackTimer? || (e.QuietTimer? && TotalOf(Outputs(before)) >= c.minOutputBytes)
  }

  predicate EverFired(c: Config, events: seq<Event>) {
    events != [] && (FiresLatch(c, Init(events), Last(events)) || EverFired(c, Init(events)))
  }

  lemma FiredStep(c: Config, s: State, outputs: seq<Event>, e: Event)
    requires Latched(s) && (!s.ready ==> s.totalBytes == TotalOf(outputs)) && Enabled(s, e)
    ensures Next(c, s, e).ready
       <==> s.ready || e.FallbackTimer? || (e.QuietTimer? && TotalOf(outputs) >= c.minOutputBytes)
  {
  }

  /** In every run, late timers or not: the gate is ready exactly when a latching timer has fired. */
  lemma {:induction false} ReadyIffFired(c: Config, events: seq<Event>)
    requires Possible(c, events)
    ensures Run(c, events).ready <==> EverFired(c, events)
  {
    if events != [] {
      var before := Init(events);
      ReadyIffFired(c, before);
      AlwaysLatched(c, before);
      if before != [] {
        ReadyMeansBooted(c, before);
      }
      FiredStep(c, Run(c, before), Outputs(before), Last(events));
    }
  }

  // ---- Readiness is prompt when timers are on time ----

  lemma TrackingOutput(c: Config, s: State, outputs: seq<Event>, now: int, e: Event)
    requires !s.ready && Tracking(c, s, outputs, now) && OnTime(s, e) && e.Output?
    ensures Tracking(c, Next(c, s, e), outputs + [e], e.ts)
  {
    var after := outputs + [e];
    ArmedOutput(c, s, outputs, e);
    forall i | 0 <= i < |after| - 1 ensures !Settled(c, after, i, e.ts) {
      assert after[..i + 1] == outputs[..i + 1];
      if i == |outputs| - 1 {
        assert outputs[..i + 1] == outputs;
      } else {
        assert !Settled(c, outputs, i, now);
      }
    }
  }

  lemma BootedWithEvent(c: Config, outputs: seq<Event>, now: int, e: Event)
    requires Booted(c, outputs, now) && now <= e.ts
    ensures Booted(c, WithEvent(outputs, e), e.ts)
  {
    var i :| 0 <= i < |outputs| && Settled(c, outputs, i, now);
    var after := WithEvent(outputs, e);
    assert after[..i + 1] == outputs[..i + 1];
    assert Settled(c, after, i, e.ts);
  }

  lemma TrackingIdle(c: Config, s: State, t: State, outputs: seq<Event>, now: int, later: int)
    requires Tracking(c, s, outputs, now)
    requires t.totalBytes == s.totalBytes && t.fallbackTimer == s.fallbackTimer
    requires t.quietTimer == s.quietTimer || (t.quietTimer == None && s.totalBytes < c.minOutputBytes)
    ensures Tracking(c, t, outputs, later)
  {
    forall i | 0 <= i < |outputs| - 1 ensures !Settled(c, outputs, i, later) {
      assert !Settled(c, outputs, i, now);
    }
  }

  lemma GateStep(c: Config, s: State, outputs: seq<Event>, now: int, e: Event)
    requires GateInvariant(c, s, outputs, now) && Enabled(s, e) && OnTime(s, e) && now <= e.ts
    ensures GateInvariant(c, Next(c, s, e), WithEvent(outputs, e), e.ts)
  {
    var t := Next(c, s, e);
    LatchedStep(c, s, e);
    if s.ready {
      BootedWithEvent(c, outputs, now, e);
    } else if e.Output? {
      TrackingOutput(c, s, outputs, now, e);
    } else {
      assert WithEvent(outputs, e) == outputs;
      if t.ready {
        LatchBooted(c, s, outputs, e);
      } else {
        TrackingIdle(c, s, t, outputs, now, e.ts);
      }
    }
  }

  lemma {:induction false} GateAlways(c: Config, events: seq<Event>)
    requires Punctual(c, events) && events != []
    ensures GateInvariant(c, Run(c, events), Outputs(events), Last(events).ts)
  {
    var before := Init(events);
    var e := Last(events);
    if before == [] {
      assert Booted(c, [], e.ts) == false;
      GateStep(c, INITIAL, [], e.ts, e);
    } else {
      GateAlways(c, before);
      GateStep(c, Run(c, before), Outputs(before), Last(before).ts, e);
    }
  }

  predicate NothingDue(s: State, t: int) {
    (s.quietTimer.Some? ==> t < s.quietTimer.value) && (s.fallbackTimer.Some? ==> t < s.fallbackTimer.value)
  }

  /** The timers refine the reference: at any time with no timer due, the gate is ready exactly when the child had
      booted. */
  lemma ReadyIffBooted(c: Config, events: seq<Event>, t: int)
    requires Punctual(c, events)
    requires events != [] ==> Last(events).ts <= t
    requires NothingDue(Run(c, events), t)
    ensures Run(c, events).ready <==> Booted(c, Outputs(events), t)
  {
    var outputs := Outputs(events);
    if events != [] {
      GateAlways(c, events);
      var s := Run(c, events);
      if s.ready {
        BootedLater(c, outputs, Last(events).ts, t);
      } else {
        TrackingIdle(c, s, s, outputs, Last(events).ts, t);
        forall i | 0 <= i < |outputs| ensures !Settled(c, outputs, i, t) {
          if i == |outputs| - 1 {
            assert outputs[..i + 1] == outputs;
          }
        }
      }
    }
  }

  // ---- Waiting ----

  /** The calls to waitUntilReady in a run. */
  function Calls(events: seq<Event>): multiset<nat> {
    if events == [] then multiset{}
    else Calls(Init(events)) + (if Last(events).Wait? then multiset{Last(events).id} else multiset{})
  }

  lemma WaiterIdsSnoc(a: seq<Waiter>, w: Waiter)
    ensures WaiterIds(a + [w]) == WaiterIds(a) + multiset{w.id}
  {
    assert (a + [w])[..|a|] == a;
  }

  lemma ResolvedIdsSnoc(a: seq<Resolution>, r: Resolution)
    ensures ResolvedIds(a + [r]) == ResolvedIds(a) + multiset{r.id}
  {
    assert (a + [r])[..|a|] == a;
  }

  lemma {:induction false} WaiterIdsRemove(a: seq<Waiter>, k: nat)
    requires k < |a|
    ensures WaiterIds(a[..k] + a[k + 1..]) + multiset{a[k].id} == WaiterIds(a)
  {
    var init, w := a[..|a| - 1], a[|a| - 1];
    if k == |init| {
      assert a[..k] + a[k + 1..] == init;
    } else {
      assert a[..k] + a[k + 1..] == (init[..k] + init[k + 1..]) + [w];
      WaiterIdsSnoc(init[..k] + init[k + 1..], w);
      WaiterIdsRemove(init, k);
    }
  }

  lemma ResolveSnoc(waiters: seq<Waiter>, now: int)
    requires waiters != []
    ensures var w := waiters[|waiters| - 1];
            Resolve(waiters, now) == Resolve(waiters[..|waiters| - 1], now) + [Resolution(w.id, w.calledAt, now)]
  {
  }

  lemma {:induction false} LatchIds(resolved: seq<Resolution>, waiters: seq<Waiter>, now: int)
    ensures ResolvedIds(resolved + Resolve(waiters, now)) == ResolvedIds(resolved) + WaiterIds(waiters)
  {
    if waiters == [] {
      assert resolved + Resolve(waiters, now) == resolved;
    } else {
      var init, w := waiters[..|waiters| - 1], waiters[|waiters| - 1];
      LatchIds(resolved, init, now);
      ResolveSnoc(waiters, now);
      LatchIdsStep(resolved, Resolve(init, now), Resolution(w.id, w.calledAt, now));
    }
  }

  lemma LatchIdsStep(a: seq<Resolution>, b: seq<Resolution>, r: Resolution)
    ensures ResolvedIds(a + (b + [r])) == ResolvedIds(a + b) + multiset{r.id}
  {
    assert a + (b + [r]) == (a + b) + [r];
    ResolvedIdsSnoc(a + b, r);
  }

  /** The calls a state knows of. */
  function KnownCalls(s: State): multiset<nat> {
    WaiterIds(s.waiters) + ResolvedIds(s.resolved)
  }

  lemma LatchKeepsCalls(s: State, now: int)
    ensures KnownCalls(MarkReady(s, now)) == KnownCalls(s)
  {
    LatchIds(s.resolved, s.waiters, now);
  }

  lemma TimeoutKeepsCalls(c: Config, s: State, now: int, k: nat)
    requires k < |s.waiters|
    ensures KnownCalls(Next(c, s, WaitTimeout(now, k))) == KnownCalls(s)
  {
    WaiterIdsRemove(s.waiters, k);
    ResolvedIdsSnoc(s.resolved, Resolution(s.waiters[k].id, s.waiters[k].calledAt, now));
  }

  lemma WaitAddsCall(c: Config, s: State, now: int, id: nat)
    ensures KnownCalls(Next(c, s, Wait(now, id))) == KnownCalls(s) + multiset{id}
  {
    var r, w := Resolution(id, now, now), Waiter(id, now, now + c.maxWaitMs);
    ResolvedIdsSnoc(s.resolved, r);
    WaiterIdsSnoc(s.waiters, w);
    WaitFields(c, s, now, id);
  }

  lemma WaitFields(c: Config, s: State, now: int, id: nat)
    ensures var t := Next(c, s, Wait(now, id));
            if s.ready then t.waiters == s.waiters && t.resolved == s.resolved + [Resolution(id, now, now)]
            else t.waiters == s.waiters + [Waiter(id, now, now + c.maxWaitMs)] && t.resolved == s.resolved
  {
  }

  lemma CallsStep(c: Config, s: State, e: Event)
    requires Enabled(s, e)
    ensures KnownCalls(Next(c, s, e)) == KnownCalls(s) + (if e.Wait? then multiset{e.id} else multiset{})
  {
    match e
    case Wait(now, id) => WaitAddsCall(c, s, now, id);
    case WaitTimeout(now, k) => TimeoutKeepsCalls(c, s, now, k);
    case QuietTimer(now) => LatchKeepsCalls(s, now);
    case FallbackTimer(now) => LatchKeepsCalls(s, now);
    case Output(_, _) => OthersKeepCalls(c, s, e);
    case Listen(_, _) => OthersKeepCalls(c, s, e);
  }

  lemma OthersKeepCalls(c: Config, s: State, e: Event)
    requires e.Output? || e.Listen?
    ensures Next(c, s, e).waiters == s.waiters && Next(c, s, e).resolved == s.resolved
  {
  }

  /** Every call is either still waiting or resolved, once; none is resolved twice. */
  lemma {:induction false} EachCallOnce(c: Config, events: seq<Event>)
    requires Possible(c, events)
    ensures KnownCalls(Run(c, events)) == Calls(events)
    ensures forall id :: Calls(events)[id] <= 1
  {
    if events != [] {
      EachCallOnce(c, Init(events));
      CallsStep(c, Run(c, Init(events)), Last(events));
    }
  }

  /** The moment a call is resolved: the latch or the longest wait, whichever is first, and at once after the latch. */
  predicate RightTime(c: Config, r: Resolution, latchedAt: Option<int>) {
    var longest := r.calledAt + c.maxWaitMs;
    match latchedAt
    case None => r.at == longest
    case Some(l) => r.at == if l <= r.calledAt then r.calledAt else if l <= longest then l else longest
  }

  predicate ResolvedInTime(c: Config, s: State, now: int) {
    && (s.latchedAt.Some? ==> s.latchedAt.value <= now)
    && (forall i | 0 <= i < |s.resolved| :: s.resolved[i].at <= now && RightTime(c, s.resolved[i], s.latchedAt))
  }

  predicate WaitersInTime(c: Config, s: State, now: int) {
    forall i | 0 <= i < |s.waiters| ::
      && s.waiters[i].deadline == s.waiters[i].calledAt + c.maxWaitMs
      && s.waiters[i].calledAt <= now <= s.waiters[i].deadline
  }

  lemma LatchInTime(c: Config, s: State, before: int, now: int)
    requires Latched(s) && !s.ready && ResolvedInTime(c, s, before) && WaitersInTime(c, s, before) && before <= now
    requires forall i | 0 <= i < |s.waiters| :: now <= s.waiters[i].deadline
    ensures ResolvedInTime(c, MarkReady(s, now), now)
  {
  }

  lemma TimingStep(c: Config, s: State, before: int, e: Event)
    requires Latched(s) && Enabled(s, e) && OnTime(s, e) && before <= e.ts
    requires ResolvedInTime(c, s, before) && WaitersInTime(c, s, before)
    ensures ResolvedInTime(c, Next(c, s, e), e.ts) && WaitersInTime(c, Next(c, s, e), e.ts)
  {
    if !s.ready && Next(c, s, e).ready {
      LatchInTime(c, s, before, e.ts);
    }
  }

  /** When every timer fires on time, every call is resolved at the earlier of the latch and the longest wait. */
  lemma {:induction false} ResolutionTimes(c: Config, events: seq<Event>)
    requires Punctual(c, events) && events != []
    ensures ResolvedInTime(c, Run(c, events), Last(events).ts)
    ensures WaitersInTime(c, Run(c, events), Last(events).ts)
  {
    var before := Init(events);
    PunctualIsPossible(c, before);
    AlwaysLatched(c, before);
    if before == [] {
      TimingStep(c, INITIAL, Last(events).ts, Last(events));
    } else {
      ResolutionTimes(c, before);
      TimingStep(c, Run(c, before), Last(before).ts, Last(events));
    }
  }
}
