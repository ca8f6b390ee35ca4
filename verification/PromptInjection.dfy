/** Injecting prompts (packages/tui-supervisor/src/HubClient.ts, `inject_prompt` and `runCommand`): each command waits
    for the readiness gate, pastes, waits again, submits and acknowledges. Commands interleave freely. */
module PromptInjection {
  import opened Runs
  import G = ReadinessGate

  datatype Config = Config(gate: G.Config, submitDelayMs: nat, firstSubmitDelayMs: nat)

  datatype Phase = Waiting | Submitting(pastedAt: int, due: int) | Finished

  datatype Command = Command(id: string, text: string, submit: bool, first: bool, calledAt: int, phase: Phase)

  /** What a command does, in order; commands are numbered as they arrive. */
  datatype Effect =
    | Pasted(command: nat, at: int, text: string)
    | Entered(command: nat, at: int)
    | Acked(command: nat, at: int, id: string, ok: bool)

  datatype State = State(gate: G.State, commands: seq<Command>, firstInjectSeen: bool, log: seq<Effect>)

  const INITIAL := State(G.INITIAL, [], false, [])

  /** A write into the child either succeeds or throws. */
  datatype Event =
    | GateEvent(gate: G.Event)
    | Inject(at: int, id: string, text: string, submit: bool)
    | Resume(at: int, command: nat, writes: bool)
    | Submit(at: int, command: nat, writes: bool)

  function TimeOf(e: Event): int {
    if e.GateEvent? then e.gate.ts else e.at
  }

  function DelayOf(c: Config, first: bool): nat {
    if first then c.firstSubmitDelayMs else c.submitDelayMs
  }

  function SetPhase(s: State, k: nat, phase: Phase): State
    requires k < |s.commands|
  {
    s.(commands := s.commands[k := s.commands[k].(phase := phase)])
  }

  function OnInject(c: Config, s: State, now: int, id: string, text: string, submit: bool): State {
    s.(gate := G.Next(c.gate, s.gate, G.Wait(now, |s.commands|)),
       commands := s.commands + [Command(id, text, submit, !s.firstInjectSeen, now, Waiting)],
       firstInjectSeen := true)
  }

  /** The wait of command k is over: paste, then acknowledge or wait to submit. */
  function OnResume(c: Config, s: State, now: int, k: nat, writes: bool): State
    requires k < |s.commands|
  {
    var cmd := s.commands[k];
    if !writes then SetPhase(s, k, Finished).(log := s.log + [Acked(k, now, cmd.id, false)])
    else if cmd.submit then
      SetPhase(s, k, Submitting(now, now + DelayOf(c, cmd.first))).(log := s.log + [Pasted(k, now, cmd.text)])
    else SetPhase(s, k, Finished).(log := s.log + [Pasted(k, now, cmd.text), Acked(k, now, cmd.id, true)])
  }

  /** The delay of command k is over: submit and acknowledge. */
  function OnSubmit(s: State, now: int, k: nat, writes: bool): State
    requires k < |s.commands|
  {
    var cmd := s.commands[k];
    SetPhase(s, k, Finished).(log := s.log + (if writes then [Entered(k, now), Acked(k, now, cmd.id, true)]
                                              else [Acked(k, now, cmd.id, false)]))
  }

  function Next(c: Config, s: State, e: Event): State {
    match e
    case GateEvent(g) => s.(gate := G.Next(c.gate, s.gate, g))
    case Inject(now, id, text, submit) => OnInject(c, s, now, id, text, submit)
    case Resume(now, k, writes) => if k < |s.commands| then OnResume(c, s, now, k, writes) else s
    case Submit(now, k, writes) => if k < |s.commands| then OnSubmit(s, now, k, writes) else s
  }

  /** The commands in flight as an object over the gate. */
  class Injector {
    const config: Config
    const gate: G.Gate
    var commands: seq<Command>
    var firstInjectSeen: bool
    var log: seq<Effect>

    ghost function Value(): State
      reads this, gate
    {
      State(gate.Value(), commands, firstInjectSeen, log)
    }

    constructor (config: Config, gate: G.Gate)
      requires gate.config == config.gate
      ensures this.config == config && this.gate == gate
      ensures Value() == State(gate.Value(), [], false, [])
    {
      this.config, this.gate := config, gate;
      commands, firstInjectSeen, log := [], false, [];
    }

    /** The `inject_prompt` message. */
    method HandleInject(now: int, id: string, text: string, submit: bool)
      requires gate.config == config.gate
      modifies this, gate
      ensures Value() == OnInject(config, old(Value()), now, id, text, submit)
    {
      var isFirstInject := !firstInjectSeen;
      firstInjectSeen := true;
      gate.WaitUntilReady(now, |commands|);
      commands := commands + [Command(id, text, submit, isFirstInject, now, Waiting)];
    }

    method HandleResume(now: int, k: nat, writes: bool)
      requires k < |commands|
      modifies this
      ensures Value() == OnResume(config, old(Value()), now, k, writes)
    {
      var cmd := commands[k];
      if !writes {
        commands := commands[k := cmd.(phase := Finished)];
        log := log + [Acked(k, now, cmd.id, false)];
        return;
      }
      if cmd.submit {
        log := log + [Pasted(k, now, cmd.text)];
        commands := commands[k := cmd.(phase := Submitting(now, now + DelayOf(config, cmd.first)))];
      } else {
        commands := commands[k := cmd.(phase := Finished)];
        log := log + [Pasted(k, now, cmd.text), Acked(k, now, cmd.id, true)];
      }
    }

    method HandleSubmit(now: int, k: nat, writes: bool)
      requires k < |commands|
      modifies this
      ensures Value() == OnSubmit(old(Value()), now, k, writes)
    {
      var cmd := commands[k];
      commands := commands[k := cmd.(phase := Finished)];
      log := log + (if writes then [Entered(k, now), Acked(k, now, cmd.id, true)] else [Acked(k, now, cmd.id, false)]);
    }
  }

  // ---- Runs ----

  function Run(c: Config, events: seq<Event>): State {
    if events == [] then INITIAL else Next(c, Run(c, Init(events)), Last(events))
  }

  predicate HasResolved(g: G.State, k: nat, now: int) {
    exists i | 0 <= i < |g.resolved| :: g.resolved[i].id == k && g.resolved[i].at <= now
  }

  /** A command goes on when its wait has resolved, and submits when its delay has elapsed. */
  predicate Enabled(s: State, e: Event) {
    match e
    case GateEvent(g) => !g.Wait? && G.Enabled(s.gate, g)
    case Inject(_, _, _, _) => true
    case Resume(now, k, _) => k < |s.commands| && s.commands[k].phase.Waiting? && HasResolved(s.gate, k, now)
    case Submit(now, k, _) => k < |s.commands| && s.commands[k].phase.Submitting? && s.commands[k].phase.due <= now
  }

  predicate Possible(c: Config, events: seq<Event>) {
    events == []
    || (Possible(c, Init(events)) && Enabled(Run(c, Init(events)), Last(events))
        && (|events| > 1 ==> TimeOf(Last(Init(events))) <= TimeOf(Last(events))))
  }

  // ---- The script of a command ----

  /** The effects of command k. */
  function EffectsOf(log: seq<Effect>, k: nat): seq<Effect> {
    if log == [] then []
    else if log[|log| - 1].command == k then EffectsOf(log[..|log| - 1], k) + [log[|log| - 1]]
    else EffectsOf(log[..|log| - 1], k)
  }

  /** The first prompt of a process is submitted late, every other one soon. */
  function RightDelay(c: Config, k: nat): nat {
    if k == 0 then c.firstSubmitDelayMs else c.submitDelayMs
  }

  /** All a command may have done in its phase: the paste first, the submitting key after the right delay, and one
      acknowledgement, last, which is positive exactly when everything was written. */
  predicate FollowsScript(c: Config, k: nat, cmd: Command, done: seq<Effect>) {
    match cmd.phase
    case Waiting => done == []
    case Submitting(pastedAt, due) =>
      cmd.submit && due == pastedAt + RightDelay(c, k) && done == [Pasted(k, pastedAt, cmd.text)]
    case Finished =>
      || (|done| == 1 && done[0].Acked? && done == [Acked(k, done[0].at, cmd.id, false)])
      || (|done| == 2 && !cmd.submit && done == [Pasted(k, done[0].at, cmd.text), Acked(k, done[0].at, cmd.id, true)])
      || (|done| == 2 && cmd.submit && done == [Pasted(k, done[0].at, cmd.text), Acked(k, done[1].at, cmd.id, false)]
          && done[1].at >= done[0].at + RightDelay(c, k))
      || (|done| == 3 && cmd.submit
          && done == [Pasted(k, done[0].at, cmd.text), Entered(k, done[1].at), Acked(k, done[1].at, cmd.id, true)]
          && done[1].at >= done[0].at + RightDelay(c, k))
  }

  predicate ScriptInvariant(c: Config, s: State) {
    && (s.firstInjectSeen <==> s.commands != [])
    && (forall k | 0 <= k < |s.commands| ::
          FollowsScript(c, k, s.commands[k], EffectsOf(s.log, k)) && (s.commands[k].first <==> k == 0))
    && (forall i | 0 <= i < |s.log| :: s.log[i].command < |s.commands|)
  }

  lemma EffectsSnoc(log: seq<Effect>, x: Effect, k: nat)
    ensures EffectsOf(log + [x], k) == if x.command == k then EffectsOf(log, k) + [x] else EffectsOf(log, k)
  {
    assert (log + [x])[..|log|] == log;
  }

  lemma {:induction false} NoEffectsYet(log: seq<Effect>, k: nat)
    requires forall i | 0 <= i < |log| :: log[i].command < k
    ensures EffectsOf(log, k) == []
  {
    if log != [] {
      NoEffectsYet(log[..|log| - 1], k);
    }
  }

  lemma {:induction false} EffectsAppend(log: seq<Effect>, xs: seq<Effect>, k: nat, j: nat)
    requires forall i | 0 <= i < |xs| :: xs[i].command == k
    ensures EffectsOf(log + xs, j) == if j == k then EffectsOf(log, j) + xs else EffectsOf(log, j)
  {
    if xs == [] {
      assert log + xs == log && EffectsOf(log, j) + xs == EffectsOf(log, j);
    } else {
      var init, x := xs[..|xs| - 1], xs[|xs| - 1];
      assert log + xs == (log + init) + [x];
      EffectsAppend(log, init, k, j);
      EffectsSnoc(log + init, x, j);
      assert EffectsOf(log, j) + init + [x] == EffectsOf(log, j) + xs;
    }
  }

  lemma AdvanceOne(c: Config, s: State, k: nat, phase: Phase, xs: seq<Effect>, j: nat)
    requires ScriptInvariant(c, s) && k < |s.commands| && j < |s.commands|
    requires forall i | 0 <= i < |xs| :: xs[i].command == k
    requires FollowsScript(c, k, s.commands[k].(phase := phase), EffectsOf(s.log, k) + xs)
    ensures var cmd := if j == k then s.commands[k].(phase := phase) else s.commands[j];
            FollowsScript(c, j, cmd, EffectsOf(s.log + xs, j)) && (cmd.first <==> j == 0)
  {
    EffectsAppend(s.log, xs, k, j);
  }

  /** One command moves on; the others are as they were. */
  lemma AdvanceScript(c: Config, s: State, k: nat, phase: Phase, xs: seq<Effect>)
    requires ScriptInvariant(c, s) && k < |s.commands|
    requires forall i | 0 <= i < |xs| :: xs[i].command == k
    requires FollowsScript(c, k, s.commands[k].(phase := phase), EffectsOf(s.log, k) + xs)
    ensures ScriptInvariant(c, SetPhase(s, k, phase).(log := s.log + xs))
  {
    var t := SetPhase(s, k, phase).(log := s.log + xs);
    assert t.log == s.log + xs && t.commands == s.commands[k := s.commands[k].(phase := phase)];
    forall j | 0 <= j < |t.commands|
      ensures FollowsScript(c, j, t.commands[j], EffectsOf(t.log, j)) && (t.commands[j].first <==> j == 0)
    {
      AdvanceOne(c, s, k, phase, xs, j);
    }
  }

  lemma ResumeScript(c: Config, s: State, now: int, k: nat, writes: bool)
    requires ScriptInvariant(c, s) && k < |s.commands| && s.commands[k].phase.Waiting?
    ensures ScriptInvariant(c, OnResume(c, s, now, k, writes))
  {
    NothingDone(c, s, k);
    if !writes {
      RefusedScript(c, s, now, k);
    } else if s.commands[k].submit {
      PastedScript(c, s, now, k);
    } else {
      PastedOnlyScript(c, s, now, k);
    }
  }

  lemma RefusedScript(c: Config, s: State, now: int, k: nat)
    requires ScriptInvariant(c, s) && k < |s.commands| && EffectsOf(s.log, k) == []
    ensures ScriptInvariant(c, OnResume(c, s, now, k, false))
  {
    FirstEffects(c, s, k, Finished, [Acked(k, now, s.commands[k].id, false)]);
  }

  lemma PastedScript(c: Config, s: State, now: int, k: nat)
    requires ScriptInvariant(c, s) && k < |s.commands| && EffectsOf(s.log, k) == [] && s.commands[k].submit
    ensures ScriptInvariant(c, OnResume(c, s, now, k, true))
  {
    var cmd := s.commands[k];
    FirstEffects(c, s, k, Submitting(now, now + DelayOf(c, cmd.first)), [Pasted(k, now, cmd.text)]);
  }

  lemma PastedOnlyScript(c: Config, s: State, now: int, k: nat)
    requires ScriptInvariant(c, s) && k < |s.commands| && EffectsOf(s.log, k) == [] && !s.commands[k].submit
    ensures ScriptInvariant(c, OnResume(c, s, now, k, true))
  {
    var cmd := s.commands[k];
    FirstEffects(c, s, k, Finished, [Pasted(k, now, cmd.text), Acked(k, now, cmd.id, true)]);
  }

  lemma NothingDone(c: Config, s: State, k: nat)
    requires ScriptInvariant(c, s) && k < |s.commands| && s.commands[k].phase.Waiting?
    ensures EffectsOf(s.log, k) == []
  {
    assert FollowsScript(c, k, s.commands[k], EffectsOf(s.log, k));
  }

  /** The first effects of a command. */
  lemma FirstEffects(c: Config, s: State, k: nat, phase: Phase, xs: seq<Effect>)
    requires ScriptInvariant(c, s) && k < |s.commands| && EffectsOf(s.log, k) == []
    requires forall i | 0 <= i < |xs| :: xs[i].command == k
    requires FollowsScript(c, k, s.commands[k].(phase := phase), xs)
    ensures ScriptInvariant(c, SetPhase(s, k, phase).(log := s.log + xs))
  {
    assert [] + xs == xs;
    AdvanceScript(c, s, k, phase, xs);
  }

  lemma SubmitScript(c: Config, s: State, now: int, k: nat, writes: bool)
    requires ScriptInvariant(c, s) && k < |s.commands| && s.commands[k].phase.Submitting?
             && s.commands[k].phase.due <= now
    ensures ScriptInvariant(c, OnSubmit(s, now, k, writes))
  {
    var cmd := s.commands[k];
    assert FollowsScript(c, k, cmd, EffectsOf(s.log, k));
    AdvanceScript(c, s, k, Finished,
                  if writes then [Entered(k, now), Acked(k, now, cmd.id, true)] else [Acked(k, now, cmd.id, false)]);
  }

  lemma InjectScript(c: Config, s: State, now: int, id: string, text: string, submit: bool)
    requires ScriptInvariant(c, s)
    ensures ScriptInvariant(c, OnInject(c, s, now, id, text, submit))
  {
    NoEffectsYet(s.log, |s.commands|);
    var t := OnInject(c, s, now, id, text, submit);
    forall k | 0 <= k < |t.commands|
      ensures FollowsScript(c, k, t.commands[k], EffectsOf(t.log, k)) && (t.commands[k].first <==> k == 0)
    {
      if k < |s.commands| {
        assert t.commands[k] == s.commands[k];
      }
    }
  }

  /** However commands interleave, each follows its script: the first one with the long delay, the others with the short
      one, and exactly one acknowledgement when it is finished. */
  lemma {:induction false} EveryCommandFollowsScript(c: Config, events: seq<Event>)
    requires Possible(c, events)
    ensures ScriptInvariant(c, Run(c, events))
  {
    if events != [] {
      var s := Run(c, Init(events));
      EveryCommandFollowsScript(c, Init(events));
      match Last(events)
      case GateEvent(_) =>
      case Inject(now, id, text, submit) => InjectScript(c, s, now, id, text, submit);
      case Resume(now, k, writes) => ResumeScript(c, s, now, k, writes);
      case Submit(now, k, writes) => SubmitScript(c, s, now, k, writes);
    }
  }

  // ---- Each command is a message ----

  /** The `inject_prompt` messages of a run. */
  function Messages(events: seq<Event>): seq<Event> {
    if events == [] then []
    else Messages(Init(events)) + (if Last(events).Inject? then [Last(events)] else [])
  }

  predicate IsMessage(cmd: Command, m: Event) {
    m.Inject? && cmd.id == m.id && cmd.text == m.text && cmd.submit == m.submit && cmd.calledAt == m.at
  }

  predicate CommandsAre(commands: seq<Command>, messages: seq<Event>) {
    |commands| == |messages| && forall k | 0 <= k < |commands| :: IsMessage(commands[k], messages[k])
  }

  lemma CommandsStep(c: Config, s: State, messages: seq<Event>, e: Event)
    requires CommandsAre(s.commands, messages)
    ensures CommandsAre(Next(c, s, e).commands, messages + (if e.Inject? then [e] else []))
  {
  }

  /** In every run the commands are the messages, one by one: id, text, whether to submit, and when. */
  lemma {:induction false} CommandsAreMessages(c: Config, events: seq<Event>)
    requires Possible(c, events)
    ensures CommandsAre(Run(c, events).commands, Messages(events))
  {
    if events != [] {
      CommandsAreMessages(c, Init(events));
      CommandsStep(c, Run(c, Init(events)), Messages(Init(events)), Last(events));
    }
  }

  lemma {:induction false} EffectIsOf(log: seq<Effect>, k: nat, i: nat)
    requires i < |log| && log[i].command == k
    ensures log[i] in EffectsOf(log, k)
  {
    if i < |log| - 1 {
      EffectIsOf(log[..|log| - 1], k, i);
    }
  }

  /** What an effect of command k says of its message. */
  predicate SaysMessage(x: Effect, m: Event) {
    && m.Inject?
    && (x.Pasted? ==> x.text == m.text) && (x.Entered? ==> m.submit) && (x.Acked? ==> x.id == m.id)
  }

  /** In every run, every paste carries the text of its message, every acknowledgement its id, and the submitting key is
      written only for a message that asks for it. */
  lemma EffectsSayMessages(c: Config, events: seq<Event>, i: nat)
    requires Possible(c, events) && i < |Run(c, events).log|
    ensures var x := Run(c, events).log[i];
            x.command < |Messages(events)| && SaysMessage(x, Messages(events)[x.command])
  {
    var s := Run(c, events);
    var k := s.log[i].command;
    EveryCommandFollowsScript(c, events);
    CommandsAreMessages(c, events);
    EffectIsOf(s.log, k, i);
    ScriptSays(c, k, s.commands[k], EffectsOf(s.log, k), s.log[i]);
  }

  lemma ScriptSays(c: Config, k: nat, cmd: Command, done: seq<Effect>, x: Effect)
    requires FollowsScript(c, k, cmd, done) && x in done
    ensures (x.Pasted? ==> x.text == cmd.text) && (x.Entered? ==> cmd.submit) && (x.Acked? ==> x.id == cmd.id)
  {
  }

  /** What an event does, told by the messages: a failed write is acknowledged as failed and nothing else is done; the
      paste is acknowledged at once when no submitting key was asked for, else with that key. */
  function Done(messages: seq<Event>, e: Event): seq<Effect>
    requires forall k | 0 <= k < |messages| :: messages[k].Inject?
  {
    if (e.Resume? || e.Submit?) && e.command < |messages| then
      var k, m := e.command, messages[e.command];
      if !e.writes then [Acked(k, e.at, m.id, false)]
      else if e.Submit? then [Entered(k, e.at), Acked(k, e.at, m.id, true)]
      else if m.submit then [Pasted(k, e.at, m.text)]
      else [Pasted(k, e.at, m.text), Acked(k, e.at, m.id, true)]
    else []
  }

  lemma {:induction false} MessagesAreInjects(events: seq<Event>)
    ensures forall k | 0 <= k < |Messages(events)| :: Messages(events)[k].Inject?
  {
    if events != [] {
      MessagesAreInjects(Init(events));
    }
  }

  /** In every run every event does exactly that. */
  lemma EffectsExact(c: Config, events: seq<Event>, e: Event)
    requires Possible(c, events)
    ensures forall k | 0 <= k < |Messages(events)| :: Messages(events)[k].Inject?
    ensures Run(c, events + [e]).log == Run(c, events).log + Done(Messages(events), e)
  {
    assert Init(events + [e]) == events;
    MessagesAreInjects(events);
    CommandsAreMessages(c, events);
    StepDone(c, Run(c, events), Messages(events), e);
  }

  lemma StepDone(c: Config, s: State, messages: seq<Event>, e: Event)
    requires forall k | 0 <= k < |messages| :: messages[k].Inject?
    requires CommandsAre(s.commands, messages)
    ensures Next(c, s, e).log == s.log + Done(messages, e)
  {
  }

  // ---- Never before the child is ready or the wait is over ----

  /** The gate has latched by time t, or a command called at calledAt has waited its longest. */
  predicate MayPaste(c: Config, g: G.State, calledAt: int, t: int) {
    t >= calledAt + c.gate.maxWaitMs || (g.latchedAt.Some? && g.latchedAt.value <= t)
  }

  predicate WaitersKnown(c: Config, s: State) {
    forall i | 0 <= i < |s.gate.waiters| ::
      var w := s.gate.waiters[i];
      w.id < |s.commands| && w.calledAt == s.commands[w.id].calledAt && w.deadline == w.calledAt + c.gate.maxWaitMs
  }

  predicate ResolvedKnown(c: Config, s: State) {
    forall i | 0 <= i < |s.gate.resolved| ::
      var r := s.gate.resolved[i];
      r.id < |s.commands| && r.calledAt == s.commands[r.id].calledAt && MayPaste(c, s.gate, r.calledAt, r.at)
  }

  predicate PastesAllowed(c: Config, s: State) {
    forall i | 0 <= i < |s.log| && s.log[i].Pasted? ::
      s.log[i].command < |s.commands| && MayPaste(c, s.gate, s.commands[s.log[i].command].calledAt, s.log[i].at)
  }

  predicate PasteInvariant(c: Config, s: State, now: int) {
    && G.Latched(s.gate) && (s.gate.latchedAt.Some? ==> s.gate.latchedAt.value <= now)
    && WaitersKnown(c, s) && ResolvedKnown(c, s) && PastesAllowed(c, s)
  }

  lemma GateKeepsPastes(c: Config, s: State, now: int, g: G.Event)
    requires PasteInvariant(c, s, now) && !g.Wait? && G.Enabled(s.gate, g) && now <= g.ts
    ensures PasteInvariant(c, s.(gate := G.Next(c.gate, s.gate, g)), g.ts)
  {
    G.LatchedStep(c.gate, s.gate, g);
  }

  lemma InjectKeepsPastes(c: Config, s: State, before: int, now: int, id: string, text: string, submit: bool)
    requires PasteInvariant(c, s, before) && before <= now
    ensures PasteInvariant(c, OnInject(c, s, now, id, text, submit), now)
  {
  }

  lemma ResumeKeepsPastes(c: Config, s: State, before: int, now: int, k: nat, writes: bool)
    requires PasteInvariant(c, s, before) && before <= now && k < |s.commands| && HasResolved(s.gate, k, now)
    ensures PasteInvariant(c, OnResume(c, s, now, k, writes), now)
  {
    assert MayPaste(c, s.gate, s.commands[k].calledAt, now) by {
      var i :| 0 <= i < |s.gate.resolved| && s.gate.resolved[i].id == k && s.gate.resolved[i].at <= now;
    }
    PastesKept(c, s, OnResume(c, s, now, k, writes), now, k);
  }

  lemma PastesKept(c: Config, s: State, t: State, now: int, k: nat)
    requires PastesAllowed(c, s) && k < |s.commands| && MayPaste(c, s.gate, s.commands[k].calledAt, now)
    requires t.gate == s.gate && |t.commands| == |s.commands|
    requires forall j | 0 <= j < |s.commands| :: t.commands[j].calledAt == s.commands[j].calledAt
    requires s.log <= t.log
    requires forall i | |s.log| <= i < |t.log| && t.log[i].Pasted? :: t.log[i].command == k && t.log[i].at == now
    ensures PastesAllowed(c, t)
  {
    forall i | 0 <= i < |t.log| && t.log[i].Pasted?
      ensures t.log[i].command < |t.commands| && MayPaste(c, t.gate, t.commands[t.log[i].command].calledAt, t.log[i].at)
    {
      if i < |s.log| {
        assert t.log[i] == s.log[i];
      }
    }
  }

  lemma SubmitKeepsPastes(c: Config, s: State, before: int, now: int, k: nat, writes: bool)
    requires PasteInvariant(c, s, before) && before <= now && k < |s.commands|
    ensures PasteInvariant(c, OnSubmit(s, now, k, writes), now)
  {
  }

  lemma {:induction false} PasteAlways(c: Config, events: seq<Event>)
    requires Possible(c, events) && events != []
    ensures PasteInvariant(c, Run(c, events), TimeOf(Last(events)))
  {
    var s := Run(c, Init(events));
    var e := Last(events);
    var before := if Init(events) == [] then TimeOf(e) else TimeOf(Last(Init(events)));
    if Init(events) != [] {
      PasteAlways(c, Init(events));
    }
    match e
    case GateEvent(g) => GateKeepsPastes(c, s, before, g);
    case Inject(now, id, text, submit) => InjectKeepsPastes(c, s, before, now, id, text, submit);
    case Resume(now, k, writes) => ResumeKeepsPastes(c, s, before, now, k, writes);
    case Submit(now, k, writes) => SubmitKeepsPastes(c, s, before, now, k, writes);
  }

  /** No prompt is ever pasted before the gate has latched or the command has waited its longest. */
  lemma NoEarlyPaste(c: Config, events: seq<Event>, i: nat)
    requires Possible(c, events) && i < |Run(c, events).log| && Run(c, events).log[i].Pasted?
    ensures var s := Run(c, events);
            var k := s.log[i].command;
            k < |s.commands| && MayPaste(c, s.gate, s.commands[k].calledAt, s.log[i].at)
  {
    if events != [] {
      PasteAlways(c, events);
    }
  }

  // ---- The gate under injection is a gate ----

  function GateEventsOf(s: State, e: Event): seq<G.Event> {
    match e
    case GateEvent(g) => [g]
    case Inject(now, _, _, _) => [G.Wait(now, |s.commands|)]
    case _ => []
  }

  function GateEvents(c: Config, events: seq<Event>): seq<G.Event> {
    if events == [] then [] else GateEvents(c, Init(events)) + GateEventsOf(Run(c, Init(events)), Last(events))
  }

  lemma {:induction false} WaiterIdsBelow(waiters: seq<G.Waiter>, n: nat)
    requires forall i | 0 <= i < |waiters| :: waiters[i].id < n
    ensures n !in G.WaiterIds(waiters)
  {
    if waiters != [] {
      WaiterIdsBelow(waiters[..|waiters| - 1], n);
    }
  }

  lemma {:induction false} ResolvedIdsBelow(resolved: seq<G.Resolution>, n: nat)
    requires forall i | 0 <= i < |resolved| :: resolved[i].id < n
    ensures n !in G.ResolvedIds(resolved)
  {
    if resolved != [] {
      ResolvedIdsBelow(resolved[..|resolved| - 1], n);
    }
  }

  lemma InjectIsNewCall(c: Config, s: State, now: int)
    requires WaitersKnown(c, s) && ResolvedKnown(c, s)
    ensures G.Enabled(s.gate, G.Wait(now, |s.commands|))
  {
    WaiterIdsBelow(s.gate.waiters, |s.commands|);
    ResolvedIdsBelow(s.gate.resolved, |s.commands|);
  }

  /** At most one gate event, enabled, at the time of the event, and doing to the gate what the event does. */
  predicate GateStepMatches(c: Config, s: State, e: Event, step: seq<G.Event>) {
    if step == [] then Next(c, s, e).gate == s.gate
    else step == [step[0]] && G.Enabled(s.gate, step[0]) && step[0].ts == TimeOf(e)
         && Next(c, s, e).gate == G.Next(c.gate, s.gate, step[0])
  }

  lemma GateEventEnabled(c: Config, s: State, e: Event)
    requires WaitersKnown(c, s) && ResolvedKnown(c, s) && Enabled(s, e)
    ensures GateStepMatches(c, s, e, GateEventsOf(s, e))
  {
    match e
    case GateEvent(g) => assert GateEventsOf(s, e) == [g];
    case Inject(now, _, _, _) =>
      InjectIsNewCall(c, s, now);
      assert GateEventsOf(s, e) == [G.Wait(now, |s.commands|)];
    case Resume(_, _, _) =>
    case Submit(_, _, _) =>
  }

  lemma GateSnoc(c: G.Config, events: seq<G.Event>, g: G.Event)
    ensures G.Run(c, events + [g]) == G.Next(c, G.Run(c, events), g)
    ensures events != [] ==>
              (G.Possible(c, events + [g])
               <==> G.Possible(c, events) && G.Enabled(G.Run(c, events), g) && Last(events).ts <= g.ts)
    ensures events == [] ==> (G.Possible(c, events + [g]) <==> G.Enabled(G.INITIAL, g))
  {
    assert Init(events + [g]) == events;
  }

  /** The n commands have made one call each. */
  ghost predicate OneCallEach(gateEvents: seq<G.Event>, n: nat) {
    forall k: nat :: G.Calls(gateEvents)[k] == if k < n then 1 else 0
  }

  lemma CallsSnoc(gateEvents: seq<G.Event>, g: G.Event)
    ensures G.Calls(gateEvents + [g]) == G.Calls(gateEvents) + (if g.Wait? then multiset{g.id} else multiset{})
  {
    assert Init(gateEvents + [g]) == gateEvents;
  }

  /** Only a new command calls, and it calls once. */
  lemma OneMoreCall(c: Config, gateEvents: seq<G.Event>, s: State, e: Event)
    requires OneCallEach(gateEvents, |s.commands|) && Enabled(s, e)
    ensures OneCallEach(gateEvents + GateEventsOf(s, e), |Next(c, s, e).commands|)
  {
    var step := GateEventsOf(s, e);
    if step == [] {
      assert gateEvents + [] == gateEvents;
    } else {
      CallsSnoc(gateEvents, step[0]);
    }
  }

  predicate GatePart(c: Config, gateEvents: seq<G.Event>, s: State, now: int) {
    && G.Possible(c.gate, gateEvents) && G.Run(c.gate, gateEvents) == s.gate
    && (gateEvents != [] ==> Last(gateEvents).ts <= now)
  }

  lemma GateExtend(c: Config, gateEvents: seq<G.Event>, s: State, before: int, e: Event)
    requires GatePart(c, gateEvents, s, before) && before <= TimeOf(e)
    requires PasteInvariant(c, s, before) && Enabled(s, e)
    ensures GatePart(c, gateEvents + GateEventsOf(s, e), Next(c, s, e), TimeOf(e))
  {
    GateEventEnabled(c, s, e);
    var step := GateEventsOf(s, e);
    if step == [] {
      assert gateEvents + [] == gateEvents;
    } else {
      GateSnoc(c.gate, gateEvents, step[0]);
    }
  }

  /** Every command makes exactly one call to wait. */
  lemma {:induction false} EachCallsOnce(c: Config, events: seq<Event>)
    requires Possible(c, events)
    ensures OneCallEach(GateEvents(c, events), |Run(c, events).commands|)
  {
    if events != [] {
      EachCallsOnce(c, Init(events));
      OneMoreCall(c, GateEvents(c, Init(events)), Run(c, Init(events)), Last(events));
    }
  }

  /** The gate under injection is in a gate run in which every command makes exactly one call to wait. */
  lemma {:induction false} GateRun(c: Config, events: seq<Event>)
    requires Possible(c, events) && events != []
    ensures GatePart(c, GateEvents(c, events), Run(c, events), TimeOf(Last(events)))
    ensures OneCallEach(GateEvents(c, events), |Run(c, events).commands|)
  {
    var before := Init(events);
    EachCallsOnce(c, events);
    if before == [] {
      GateExtend(c, [], INITIAL, TimeOf(Last(events)), Last(events));
    } else {
      GateRun(c, before);
      PasteAlways(c, before);
      GateExtend(c, GateEvents(c, before), Run(c, before), TimeOf(Last(before)), Last(events));
    }
  }

  /** In every run each command's wait is known to the gate once: pending or resolved, never twice. When the gate's
      timers are on time, it is resolved at the earlier of the latch and the command's longest wait. */
  lemma EachWaitResolvesOnce(c: Config, events: seq<Event>)
    requires Possible(c, events) && events != []
    ensures var s := Run(c, events);
            forall k: nat :: G.KnownCalls(s.gate)[k] == if k < |s.commands| then 1 else 0
    ensures var s := Run(c, events);
            G.Punctual(c.gate, GateEvents(c, events)) ==>
              forall i | 0 <= i < |s.gate.resolved| ::
                var r := s.gate.resolved[i];
                r.id < |s.commands| && r.calledAt == s.commands[r.id].calledAt
                && G.RightTime(c.gate, r, s.gate.latchedAt)
  {
    var gateEvents := GateEvents(c, events);
    GateRun(c, events);
    PasteAlways(c, events);
    G.EachCallOnce(c.gate, gateEvents);
    if G.Punctual(c.gate, gateEvents) && gateEvents != [] {
      G.ResolutionTimes(c.gate, gateEvents);
    }
  }
}
