/** Runs of tool calls, nodes, checkpoints and reported outcomes through the pipeline (lens.py), and what
    becomes of the breaker's probe slot in them. */
module Runs {
  import opened Common
  import opened Decisions
  import opened PyObjects
  import opened Pipeline
  import BK = BucketKeys
  import BR = Breaker
  import CB = CircuitBreaker
  import RL = RateLimiter
  import T1 = ToolDetector
  import TB = TokenBucket

  /** One call of the orchestrator. The verdict of the goal guard on a node and the findings of the
      checkpoint protector are given. */
  datatype Turn =
    | ToolTurn(call: ToolCall, clock: Clock)
    | NodeTurn(thread: Option<string>, guard: Decision<Dict>, guardFindings: seq<Detection>, clock: Clock)
    | CheckpointTurn(findings: seq<Detection>, at: real)
    | Report(at: real, error: bool)

  /** A turn that asks the breaker. */
  predicate Asks(turn: Turn) {
    turn.ToolTurn? || turn.NodeTurn?
  }

  /** Everything that breaker, detector and limiter have seen. */
  datatype World = World(heard: seq<BR.Event>, scans: seq<T1.Scan>, calls: seq<RL.Call>)

  function Seen(s: Settings, w: World): Before {
    Before(BR.After(s.breaker, w.heard), w.scans, w.calls)
  }

  /** What the breaker hears in one turn. */
  function Heard(s: Settings, b: Before, turn: Turn): seq<BR.Event> {
    match turn
    case ToolTurn(c, t) => BreakerEvents(s, b, c, t)
    case NodeTurn(thread, _, findings, t) => NodeEvents(s, b, thread, findings, t)
    case CheckpointTurn(findings, at) => Signals(s.breaker, findings, at)
    case Report(at, error) => if s.breaker.enabled then [BR.Response(at, error)] else []
  }

  function Turned(s: Settings, w: World, turn: Turn): World {
    var heard := w.heard + Heard(s, Seen(s, w), turn);
    match turn
    case ToolTurn(c, t) =>
      World(heard, T1.Logged(s.tool, ScansAfter(s, Seen(s, w), c, t), c.tool, c.thread, t.inspect),
            CallsAfter(s, Seen(s, w), c, t))
    case _ => w.(heard := heard)
  }

  function Run(s: Settings, w: World, turns: seq<Turn>): World {
    if turns == [] then w else Turned(s, Run(s, w, turns[..|turns| - 1]), turns[|turns| - 1])
  }

  /** Breaker, allow-list, limiter or goal guard answer the turn `block`. The redactor, which
      may block a node as well, is asked after them. */
  predicate Blocked(s: Settings, w: World, turn: Turn) {
    match turn
    case ToolTurn(c, t) => Answer(s, Seen(s, w), c, t).action == Block
    case NodeTurn(thread, guard, _, t) => Merged(GateAndGuard(s, Seen(s, w), thread, guard, t)).action == Block
    case _ => false
  }

  // ----------------------------------------------------------- the probe slot

  lemma GatePassesIff(s: Settings, b: Before, t: Clock)
    requires s.breaker.enabled
    ensures PassesGate(s, b, t) <==> BR.Admits(s.breaker, b.breaker, t.gate)
  {
  }

  lemma SignalsAreAttacks(cfg: BR.Config, findings: seq<Detection>, at: real)
    ensures forall k :: 0 <= k < |Signals(cfg, findings, at)| ==> Signals(cfg, findings, at)[k].Attack?
  {
  }

  /** A request followed by attack signals leaves the breaker half-open iff it was half-open, or
      open and due, and no signal alarms. */
  lemma RequestThenSignals(cfg: BR.Config, log: seq<BR.Event>, at: real, signals: seq<BR.Event>)
    requires forall k :: 0 <= k < |signals| ==> signals[k].Attack?
    requires !BR.Admits(cfg, BR.After(cfg, log), at) ==> signals == []
    ensures var before := BR.After(cfg, log);
      BR.After(cfg, log + ([BR.Request(at)] + signals)).phase == BR.HalfOpen
      <==> && (before.phase == BR.HalfOpen || (before.phase == BR.Open && BR.Admits(cfg, before, at)))
           && !BR.SomeAlarm(cfg, log, [BR.Request(at)] + signals)
  {
    hide BR.After, BR.SomeAlarm;
    var e := BR.Request(at);
    assert log + ([e] + signals) == log + [e] + signals;
    BR.AfterStep(cfg, log, e);
    BR.AlarmsAfter(cfg, log, e, signals);
    BR.AttackRunOpensIff(cfg, log + [e], signals);
    if signals == [] {
      assert !BR.SomeAlarm(cfg, log + [e], signals) by { NoAlarmInNothing(cfg, log + [e]); }
    }
  }

  lemma NoAlarmInNothing(cfg: BR.Config, log: seq<BR.Event>)
    ensures !BR.SomeAlarm(cfg, log, [])
  {
  }

  /** The request and signals of a turn, with what is known about them. */
  lemma HeardIs(s: Settings, b: Before, turn: Turn) returns (signals: seq<BR.Event>)
    requires s.breaker.enabled && Asks(turn)
    ensures Heard(s, b, turn) == [BR.Request(turn.clock.gate)] + signals
    ensures forall k :: 0 <= k < |signals| ==> signals[k].Attack?
    ensures !BR.Admits(s.breaker, b.breaker, turn.clock.gate) ==> signals == []
  {
    hide BR.Admits, AllowlistFindings, PassesGate, Signals;
    GatePassesIff(s, b, turn.clock);
    match turn
    case ToolTurn(c, t) =>
      SignalsAreAttacks(s.breaker, AllowlistFindings(s, b, c, t), t.signal);
      signals := if PassesGate(s, b, t) then Signals(s.breaker, AllowlistFindings(s, b, c, t), t.signal) else [];
    case NodeTurn(thread, _, findings, t) =>
      SignalsAreAttacks(s.breaker, findings, t.signal);
      signals := if AsksGuard(s, b, thread, t) then Signals(s.breaker, findings, t.signal) else [];
  }

  /** Whatever the answer, a tool call or node leaves the breaker half-open, with its probe out,
      iff the breaker was half-open, or open and due for a probe, and none of its findings alarms. */
  lemma HoldsProbeIff(s: Settings, w: World, turn: Turn)
    requires s.breaker.enabled && Asks(turn)
    ensures var before, heard := Seen(s, w).breaker, Heard(s, Seen(s, w), turn);
      Seen(s, Turned(s, w, turn)).breaker.phase == BR.HalfOpen
      <==> && (before.phase == BR.HalfOpen
               || (before.phase == BR.Open && BR.Admits(s.breaker, before, turn.clock.gate)))
           && !BR.SomeAlarm(s.breaker, w.heard, heard)
  {
    hide BR.After, BR.SomeAlarm, BR.Admits, Heard;
    var signals := HeardIs(s, Seen(s, w), turn);
    RequestThenSignals(s.breaker, w.heard, turn.clock.gate, signals);
  }

  /** The refusals that take the probe slot. */
  predicate RefusedAsProbe(s: Settings, w: World, c: ToolCall, t: Clock) {
    var b := Seen(s, w);
    && b.breaker.phase == BR.Open && BR.Admits(s.breaker, b.breaker, t.gate)
    && (AllowlistDecision(s, b, c, t).action == Block || (s.limiter.enabled && !Affordable(s, b, c, t)))
    && !BR.SomeAlarm(s.breaker, w.heard, BreakerEvents(s, b, c, t))
  }

  /** When a tool call that is not allowed takes the probe slot all the same: iff the breaker was
      open and due, allow-list or limiter refused the call, and none of its findings alarmed. */
  lemma RefusedCallTakesProbeIff(s: Settings, w: World, c: ToolCall, t: Clock)
    requires s.breaker.enabled
    ensures
      && Answer(s, Seen(s, w), c, t).action != Allow
      && Seen(s, w).breaker.phase != BR.HalfOpen
      && Seen(s, Turned(s, w, ToolTurn(c, t))).breaker.phase == BR.HalfOpen
      <==> RefusedAsProbe(s, w, c, t)
  {
    hide Seen, BR.SomeAlarm, BR.Admits, BreakerEvents, Answer, AllowlistDecision, Affordable, PassesGate;
    HoldsProbeIff(s, w, ToolTurn(c, t));
    GatePassesIff(s, Seen(s, w), t);
    AllowedIff(s, Seen(s, w), c, t);
  }

  /** It does happen: after one error and a cooldown, to any call that an empty bucket refuses. */
  lemma RefusedCallTakesProbe(s: Settings, w: World, c: ToolCall, t: Clock)
    requires s.breaker.enabled && !s.breaker.failClosed && s.limiter.enabled && s.limiter.capacity < 1.0
    requires s.breaker.window >= 0 && s.breaker.minSamples <= 1 && s.breaker.threshold <= 1.0
    requires s.breaker.cooldown == 30 && t.gate >= 30.0
    requires w == World([BR.Response(0.0, true)], [], [])
    ensures Answer(s, Seen(s, w), c, t).action != Allow
    ensures Seen(s, Turned(s, w, ToolTurn(c, t))).breaker == BR.State(BR.HalfOpen, 0.0, 1)
  {
    hide BR.After, BR.SomeAlarm, AllowlistFindings, AllowlistDecision, PassesGate, Answer, BK.KeyOf;
    var b := Seen(s, w);
    BR.OneErrorOpens(s.breaker);
    AllowedIff(s, b, c, t);
    BR.AfterStep(s.breaker, w.heard, BR.Request(t.gate));
    assert BreakerEvents(s, b, c, t) == [BR.Request(t.gate)];
  }

  // ------------------------------------------------------------- the lock-out

  /** A half-open breaker blocks every tool call and every node, and is not moved by them; nor
      do they reach any bucket. */
  lemma HalfOpenLocks(s: Settings, w: World, turn: Turn)
    requires s.breaker.enabled && Seen(s, w).breaker.phase == BR.HalfOpen && Asks(turn)
    ensures Blocked(s, w, turn)
    ensures Turned(s, w, turn).heard == w.heard + [BR.Request(turn.clock.gate)]
    ensures Seen(s, Turned(s, w, turn)).breaker == Seen(s, w).breaker && Turned(s, w, turn).calls == w.calls
  {
    hide BR.After, BR.Next, Merged, Signals, T1.Logged;
    var b := Seen(s, w);
    BR.ProbeSlots(s.breaker, w.heard);
    BR.AfterStep(s.breaker, w.heard, BR.Request(turn.clock.gate));
    OneStage(GateDecision(s, b, turn.clock));
  }

  /** The turn neither reports an outcome nor, as a checkpoint can, raises an alarm. */
  predicate Undisturbed(s: Settings, w: World, turn: Turn) {
    match turn
    case Report(_, _) => false
    case CheckpointTurn(_, _) => !BR.SomeAlarm(s.breaker, w.heard, Heard(s, Seen(s, w), turn))
    case _ => true
  }

  /** What one turn does to a half-open breaker: it moves it iff it reports or alarms. */
  lemma MovesIffDisturbed(s: Settings, w: World, turn: Turn)
    requires s.breaker.enabled && Seen(s, w).breaker.phase == BR.HalfOpen
    ensures Seen(s, Turned(s, w, turn)).breaker.phase == BR.HalfOpen <==> Undisturbed(s, w, turn)
    ensures Undisturbed(s, w, turn) ==>
      && Seen(s, Turned(s, w, turn)).breaker == Seen(s, w).breaker && Turned(s, w, turn).calls == w.calls
      && (Asks(turn) ==> Blocked(s, w, turn))
  {
    hide BR.After, BR.SomeAlarm, Blocked, Signals, BreakerEvents, NodeEvents;
    match turn
    case Report(at, error) =>
      ReportUnlocks(s, w, at, error);
    case CheckpointTurn(findings, at) =>
      SignalsAreAttacks(s.breaker, findings, at);
      BR.AttackRunOpensIff(s.breaker, w.heard, Signals(s.breaker, findings, at));
    case _ =>
      HalfOpenLocks(s, w, turn);
  }

  ghost predicate LockedThroughout(s: Settings, w: World, turns: seq<Turn>) {
    forall k :: 0 <= k <= |turns| ==> Seen(s, Run(s, w, turns[..k])).breaker.phase == BR.HalfOpen
  }

  ghost predicate AllUndisturbed(s: Settings, w: World, turns: seq<Turn>) {
    forall k :: 0 <= k < |turns| ==> Undisturbed(s, Run(s, w, turns[..k]), turns[k])
  }

  /** The last turn of a run, seen apart. */
  lemma SplitRun(s: Settings, w: World, init: seq<Turn>, turn: Turn)
    ensures Run(s, w, init + [turn]) == Turned(s, Run(s, w, init), turn)
    ensures LockedThroughout(s, w, init + [turn])
       <==> LockedThroughout(s, w, init) && Seen(s, Run(s, w, init + [turn])).breaker.phase == BR.HalfOpen
    ensures AllUndisturbed(s, w, init + [turn])
       <==> AllUndisturbed(s, w, init) && Undisturbed(s, Run(s, w, init), turn)
    ensures LockedThroughout(s, w, init) ==> Seen(s, Run(s, w, init)).breaker.phase == BR.HalfOpen
  {
    hide Seen, Turned, Undisturbed;
    var turns := init + [turn];
    assert forall k :: 0 <= k <= |init| ==> turns[..k] == init[..k];
    assert turns[..|turns|] == turns && init[..|init|] == init && turns[..|init|] == init;
  }

  /** Once the probe is out, every tool call and every node is blocked until some outcome is
      reported or a checkpoint alarms: over any run without these, however long, the breaker
      does not move. */
  lemma {:induction false} LockedUntilDisturbed(s: Settings, w: World, turns: seq<Turn>)
    requires s.breaker.enabled && Seen(s, w).breaker.phase == BR.HalfOpen
    requires AllUndisturbed(s, w, turns)
    ensures Seen(s, Run(s, w, turns)).breaker == Seen(s, w).breaker && Run(s, w, turns).calls == w.calls
    ensures forall k :: 0 <= k < |turns| && Asks(turns[k]) ==> Blocked(s, Run(s, w, turns[..k]), turns[k])
  {
    hide Seen, Turned, Blocked, Undisturbed, Asks, Run, AllUndisturbed;
    NoTurns(s, w);
    if turns != [] {
      var init, turn := turns[..|turns| - 1], turns[|turns| - 1];
      assert turns == init + [turn];
      SplitRun(s, w, init, turn);
      LockedUntilDisturbed(s, w, init);
      MovesIffDisturbed(s, Run(s, w, init), turn);
      assert forall k :: 0 <= k < |init| ==> turns[..k] == init[..k];
    }
  }

  /** And that is exactly how long: the breaker stays half-open throughout a run iff no turn of
      it reports or alarms. */
  lemma {:induction false} StaysLockedIff(s: Settings, w: World, turns: seq<Turn>)
    requires s.breaker.enabled && Seen(s, w).breaker.phase == BR.HalfOpen
    ensures LockedThroughout(s, w, turns) <==> AllUndisturbed(s, w, turns)
  {
    hide Seen, Turned, Undisturbed, Run;
    if turns == [] {
      NoTurns(s, w);
      assert turns[..0] == [];
    } else {
      hide LockedThroughout, AllUndisturbed;
      var init, turn := turns[..|turns| - 1], turns[|turns| - 1];
      assert turns == init + [turn];
      SplitRun(s, w, init, turn);
      StaysLockedIff(s, w, init);
      if LockedThroughout(s, w, init) {
        MovesIffDisturbed(s, Run(s, w, init), turn);
      }
    }
  }

  lemma NoTurns(s: Settings, w: World)
    ensures Run(s, w, []) == w
  {
  }

  /** So a call that was refused can lock everybody out. */
  lemma RefusedCallLocksOut(s: Settings, w: World, c: ToolCall, t: Clock, turns: seq<Turn>)
    requires s.breaker.enabled && RefusedAsProbe(s, w, c, t)
    requires AllUndisturbed(s, Turned(s, w, ToolTurn(c, t)), turns)
    ensures Answer(s, Seen(s, w), c, t).action != Allow
    ensures var after := Turned(s, w, ToolTurn(c, t));
      forall k :: 0 <= k < |turns| && Asks(turns[k]) ==> Blocked(s, Run(s, after, turns[..k]), turns[k])
  {
    hide Seen, Turned, Blocked, Answer, RefusedAsProbe, Undisturbed, Asks;
    RefusedCallTakesProbeIff(s, w, c, t);
    LockedUntilDisturbed(s, Turned(s, w, ToolTurn(c, t)), turns);
  }

  /** A report ends it: a success closes the breaker, an error opens it. */
  lemma ReportUnlocks(s: Settings, w: World, at: real, error: bool)
    requires s.breaker.enabled && Seen(s, w).breaker.phase == BR.HalfOpen
    ensures Seen(s, Turned(s, w, Report(at, error))).breaker.phase == if error then BR.Open else BR.Closed
  {
    BR.AfterStep(s.breaker, w.heard, BR.Response(at, error));
  }
}
