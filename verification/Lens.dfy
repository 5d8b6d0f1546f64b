/** The orchestrator (lens.py): the decision paths for tool calls and nodes, and the
    per-thread buffer of events. */
module Lens {
  import opened Common
  import opened Decisions
  import opened Histories
  import opened PyObjects
  import Alerts
  import BR = Breaker
  import CB = CircuitBreaker
  import RL = RateLimiter
  import T1 = ToolDetector
  import TA = ToolAllowlist
  import PR = Redactor
  import opened Pipeline
  import opened Runs

  const MAX_EVENTS_PER_THREAD := 256

  /** An emitted event; its findings may be extended after it was emitted. */
  class Event {
    const thread: Option<string>
    var detections: seq<Detection>

    constructor (thread: Option<string>, detections: seq<Detection>)
      ensures this.thread == thread && this.detections == detections
    {
      this.thread, this.detections := thread, detections;
    }
  }

  /** What an emitted event adds to the history of its thread. */
  function Emission(event: Event): seq<Keyed<Event>> {
    if event.thread.Some? && event.thread.value != "" then [Keyed(event.thread.value, event)] else []
  }

  /** The alert log after an event with these findings. */
  function Alerted(cfg: Alerts.Config, log: seq<Alerts.Firing>, findings: seq<Detection>, now: real)
    : seq<Alerts.Firing>
  {
    if findings == [] then log else Alerts.LogAfter(cfg, log, set d | d in findings :: d.detector, now)
  }

  lemma AlertedIff(cfg: Alerts.Config, log: seq<Alerts.Firing>, findings: seq<Detection>, now: real)
    ensures var after := Alerted(cfg, log, findings, now);
      if cfg.enabled && cfg.webhook && exists d :: d in findings && d.detector in cfg.alertOn
      then
        && |after| == |log| + 1 && after[..|log|] == log && after[|log|].at == now
        && forall kind :: kind in after[|log|].kinds <==>
             kind in cfg.alertOn && exists d :: d in findings && d.detector == kind
      else after == log
  {
    hide Alerts.LogAfter;
    var kinds := set d | d in findings :: d.detector;
    Alerts.LoggedIff(cfg, log, kinds, now);
    assert forall kind :: kind in kinds <==> exists d :: d in findings && d.detector == kind;
    if cfg.enabled && cfg.webhook && exists kind :: kind in kinds && kind in cfg.alertOn {
      var kind :| kind in kinds && kind in cfg.alertOn;
      var d :| d in findings && d.detector == kind;
    }
  }

  /** The alert log after a node: the findings on the attack surface come before the first one's. */
  function NodeAlerts(cfg: Alerts.Config, log: seq<Alerts.Firing>, scanned: bool, surface: seq<Detection>,
                      tier1: seq<Detection>, now: real): seq<Alerts.Firing>
  {
    Alerted(cfg, if scanned then log else Alerted(cfg, log, surface, now), tier1, now)
  }

  function LastOf<T>(s: seq<T>, n: nat): seq<T> {
    if |s| <= n then s else s[|s| - n..]
  }

  /** What is kept of a thread's events are the last 256, in order. */
  lemma LatestKept<T>(s: seq<T>)
    ensures var kept := LastOf(s, MAX_EVENTS_PER_THREAD);
      && |kept| == (if |s| < 256 then |s| else 256)
      && forall k :: 0 <= k < |kept| ==> kept[k] == s[|s| - |kept| + k]
  {
  }

  // ---------------------------------------------------------------- the class

  class Lens {
    const audit: AuditConfig
    const stampState: bool
    const breaker: CB.CircuitBreaker<Dict>
    const allowlist: TA.ToolAllowlist<Dict>
    const limiter: RL.RateLimiter<Dict>
    const redactor: PR.Redactor
    const alerts: Alerts.AlertSender
    var threadEvents: map<string, seq<Event>>
    var surfaceScanned: bool
    /** Every event emitted on a thread. */
    ghost var emitted: seq<Keyed<Event>>
    /** Every tool call that was answered `allow` while the limiter was enabled. */
    ghost var allowed: seq<RL.Call>

    function EventsForThread(thread: string): seq<Event>
      reads this`threadEvents
    {
      if thread in threadEvents then threadEvents[thread] else []
    }

    /** The buffers hold the latest events of each thread. */
    ghost predicate Buffered()
      reads this`threadEvents, this`emitted
    {
      forall thread :: EventsForThread(thread) == LastOf(On(emitted, thread), MAX_EVENTS_PER_THREAD)
    }

    /** What was allowed is what the limiter granted. */
    ghost predicate Balanced()
      reads this`allowed, limiter`log
    {
      && RL.InOrder(limiter.log) && RL.Charged(limiter.log)
      && (limiter.cfg.enabled ==> allowed == RL.GrantedCalls(limiter.cfg, limiter.log))
    }

    ghost predicate Valid()
      reads this, breaker, allowlist, allowlist.t1, limiter, limiter.repr, alerts
    {
      breaker.Valid() && alerts.Valid() && Buffered() && ToolsValid()
    }

    /** The part that only tool calls touch. */
    ghost predicate ToolsValid()
      reads this`allowed, allowlist, allowlist.t1, limiter, limiter.repr
    {
      allowlist.t1.Valid() && limiter.Valid() && Balanced()
    }

    ghost predicate NotBefore(t: Clock)
      reads this, breaker, allowlist, allowlist.t1, limiter
    {
      && t.Ordered()
      && breaker.NotBefore(t.gate) && allowlist.t1.NotBefore(t.scan)
      && (limiter.log != [] ==> limiter.log[|limiter.log| - 1].item.time <= t.limit)
    }

    function Config(): Settings {
      Settings(breaker.cfg, allowlist.t1.cfg, allowlist.cfg, limiter.cfg)
    }

    ghost function Now(): Before
      reads breaker, allowlist.t1, limiter
    {
      Before(breaker.View(), allowlist.t1.log, limiter.log)
    }

    /** Everything that was seen so far. */
    ghost function World(): World
      reads breaker, allowlist.t1, limiter
    {
      Runs.World(breaker.log, allowlist.t1.log, limiter.log)
    }

    constructor (audit: AuditConfig, stampState: bool, settings: Settings, redactor: PR.Config, alerts: Alerts.Config)
      ensures Valid() && allowed == [] && emitted == [] && !surfaceScanned
      ensures this.audit == audit && this.stampState == stampState && Config() == settings
      ensures this.redactor.cfg == redactor && this.alerts.cfg == alerts
    {
      this.audit, this.stampState := audit, stampState;
      this.breaker := new CB.CircuitBreaker(settings.breaker);
      var t1 := new T1.ToolDetector(settings.tool);
      this.allowlist := new TA.ToolAllowlist(settings.allowlist, t1);
      this.limiter := new RL.RateLimiter(settings.limiter);
      this.redactor := new PR.Redactor(redactor);
      this.alerts := new Alerts.AlertSender(alerts);
      threadEvents, surfaceScanned, emitted, allowed := map[], false, [], [];
    }

    /** Appends an event to its thread's buffer, the oldest one falling out, and lets its
        findings alert. */
    method Emit(event: Event, now: real)
      requires Buffered() && alerts.Valid()
      modifies this`threadEvents, this`emitted, alerts
      ensures Buffered() && alerts.Valid()
      ensures emitted == old(emitted) + Emission(event)
      ensures alerts.log == Alerted(alerts.cfg, old(alerts.log), event.detections, now)
    {
      hide On, Alerts.LogAfter;
      if event.thread.Some? && event.thread.value != "" {
        var thread := event.thread.value;
        var buffer := EventsForThread(thread) + [event];
        if |buffer| > MAX_EVENTS_PER_THREAD {
          buffer := buffer[1..];
        }
        ghost var before := emitted;
        threadEvents := threadEvents[thread := buffer];
        emitted := emitted + [Keyed(thread, event)];
        forall other
          ensures EventsForThread(other) == LastOf(On(emitted, other), MAX_EVENTS_PER_THREAD)
        {
          OnLast(before, Keyed(thread, event), other);
        }
      }
      if event.detections != [] {
        var kinds := set d | d in event.detections :: d.detector;
        var sent := alerts.MaybeSend(kinds, now);
      }
    }

    method SignalAttacks(findings: seq<Detection>, now: real)
      requires breaker.Valid() && breaker.NotBefore(now)
      modifies breaker
      ensures breaker.Valid()
      ensures breaker.log == old(breaker.log) + Signals(breaker.cfg, findings, now)
    {
      hide CB.CircuitBreaker.Valid, Signals;
      SignalsOfNone(breaker.cfg, now);
      for i := 0 to |findings|
        invariant breaker.Valid() && breaker.NotBefore(now)
        invariant breaker.log == old(breaker.log) + Signals(breaker.cfg, findings[..i], now)
      {
        SignalsStep(breaker.cfg, findings, i, now);
        breaker.RecordAttackSignal(now, findings[i].severity);
      }
      assert findings[..|findings|] == findings;
    }

    method InspectToolCall(c: ToolCall, now: real) returns (event: Event)
      requires allowlist.t1.Valid() && allowlist.t1.NotBefore(now) && Buffered() && alerts.Valid()
      modifies this`threadEvents, this`emitted, alerts, allowlist.t1
      ensures allowlist.t1.Valid() && Buffered() && alerts.Valid() && fresh(event)
      ensures allowlist.t1.log == T1.Logged(allowlist.t1.cfg, old(allowlist.t1.log), c.tool, c.thread, now)
      ensures event.detections
           == T1.Report(allowlist.t1.cfg, old(allowlist.t1.log), c.tool, c.args, None, c.thread, now)
      ensures event.thread == c.thread && emitted == old(emitted) + Emission(event)
      ensures alerts.log == Alerted(alerts.cfg, old(alerts.log), event.detections, now)
    {
      hide T1.Logged, T1.Report, Alerted, Buffered;
      var findings := allowlist.t1.Scan(c.tool, c.args, None, c.thread, now);
      event := new Event(c.thread, findings);
      Emit(event, now);
    }

    // ------------------------------------------------------------- its stages

    method GateStage(t: Clock) returns (d: LensDecision<Dict>, extra: seq<Detection>)
      requires breaker.Valid() && breaker.NotBefore(t.gate)
      modifies breaker
      ensures breaker.Valid()
      ensures breaker.log == old(breaker.log) + if breaker.cfg.enabled then [BR.Request(t.gate)] else []
      ensures fresh(d) && d.View() == Merged([GateDecision(Config(), old(Now()), t)])
      ensures extra == GateFindings(Config(), old(Now()), t)
    {
      d := new LensDecision(Neutral());
      var gate;
      gate, extra := breaker.EvaluateRequest(t.gate);
      MergedStep([], gate.View());
      assert [] + [gate.View()] == [gate.View()];
      d := d.MergeWith(gate);
    }

    method AllowlistStage(d: LensDecision<Dict>, c: ToolCall, t: Clock, ghost gate: Decision<Dict>)
      returns (merged: LensDecision<Dict>, extra: seq<Detection>)
      requires d.View() == Merged([gate]) && t.Ordered()
      requires allowlist.t1.Valid() && allowlist.t1.NotBefore(t.scan)
      requires breaker.Valid() && breaker.NotBefore(t.signal)
      modifies d, allowlist.t1, breaker
      ensures allowlist.t1.Valid() && breaker.Valid() && allowlist.t1.NotBefore(t.scan)
      ensures merged == d || fresh(merged)
      ensures merged.View() == Merged([gate, AllowlistDecision(Config(), old(Now()), c, t)])
      ensures extra == AllowlistFindings(Config(), old(Now()), c, t)
      ensures breaker.log == old(breaker.log) + Signals(breaker.cfg, extra, t.signal)
      ensures allowlist.t1.log == if allowlist.cfg.enabled
        then T1.Logged(allowlist.t1.cfg, old(allowlist.t1.log), c.tool, c.thread, t.scan) else old(allowlist.t1.log)
    {
      hide Merged, Merge, T1.Report, T1.Logged, Signals;
      T1.LoggedNotAfter(allowlist.t1.cfg, allowlist.t1.log, c.tool, c.thread, t.scan);
      var own;
      own, extra := allowlist.Evaluate(c.tool, c.args, c.thread, t.scan);
      MergedStep([gate], own.View());
      assert [gate] + [own.View()] == [gate, own.View()];
      merged := d.MergeWith(own);
      SignalAttacks(extra, t.signal);
    }

    method LimitStage(d: LensDecision<Dict>, c: ToolCall, t: Clock, ghost before: Before,
                      ghost stages: seq<Decision<Dict>>)
      returns (merged: LensDecision<Dict>, extra: seq<Detection>)
      requires d.View() == Merged(stages) && limiter.Valid() && limiter.log == before.calls
      modifies d, limiter, limiter.repr
      ensures limiter.Valid() && fresh(limiter.repr - old(limiter.repr))
      ensures merged == d || fresh(merged)
      ensures limiter.log == if limiter.cfg.enabled then before.calls + [Priced(Config(), c, t)] else before.calls
      ensures merged.View() == Merged(stages + [LimitDecision(Config(), before, c, t)])
      ensures extra == LimitFindings(Config(), before, c, t)
    {
      hide Merged, Merge, RL.Answer, TB.Admits, On, BK.KeyOf;
      var own;
      own, extra := limiter.Evaluate(c.tool, |c.args|, c.thread, c.tenant, t.limit);
      MergedStep(stages, own.View());
      merged := d.MergeWith(own);
    }

    /** Allow-list and limiter, after a gate that let the call through. */
    method LaterStages(d: LensDecision<Dict>, c: ToolCall, t: Clock, ghost before: Before)
      returns (merged: LensDecision<Dict>, extra: seq<Detection>)
      requires PassesGate(Config(), before, t) && d.View() == Merged([GateDecision(Config(), before, t)]) && t.Ordered()
      requires allowlist.t1.Valid() && allowlist.t1.NotBefore(t.scan) && allowlist.t1.log == before.scans
      requires breaker.Valid() && breaker.NotBefore(t.signal)
      requires limiter.Valid() && limiter.log == before.calls
      modifies d, allowlist.t1, breaker, limiter, limiter.repr
      ensures allowlist.t1.Valid() && breaker.Valid() && limiter.Valid() && allowlist.t1.NotBefore(t.scan)
      ensures (merged == d || fresh(merged)) && fresh(limiter.repr - old(limiter.repr))
      ensures merged.View() == Answer(Config(), before, c, t)
      ensures extra == AllowlistFindings(Config(), before, c, t)
        + if PassesAllowlist(Config(), before, c, t) then LimitFindings(Config(), before, c, t) else []
      ensures breaker.log
           == old(breaker.log) + Signals(breaker.cfg, AllowlistFindings(Config(), before, c, t), t.signal)
      ensures allowlist.t1.log == ScansAfter(Config(), before, c, t)
      ensures limiter.log == CallsAfter(Config(), before, c, t)
    {
      hide Merged, GateDecision, AllowlistDecision, LimitDecision, AllowlistFindings, LimitFindings, Priced, Signals,
           T1.Logged, RL.RateLimiter.Valid, T1.ToolDetector.Valid, CB.CircuitBreaker.Valid;
      ghost var gate, verdict := GateDecision(Config(), before, t), AllowlistDecision(Config(), before, c, t);
      SameScans(Config(), before, Now(), c, t);
      merged, extra := AllowlistStage(d, c, t, gate);
      TwoStages(gate, verdict);
      if !merged.action.IsTerminal() {
        var more;
        merged, more := LimitStage(merged, c, t, before, [gate, verdict]);
        extra := extra + more;
        assert [gate, verdict] + [LimitDecision(Config(), before, c, t)] == Stages(Config(), before, c, t);
      }
    }

    /** Decides one tool call: breaker, allow-list and limiter, each only while none before it
        blocks, then Tier 1 inspection. The stages' findings join the event after it was emitted. */
    method DecideToolCall(c: ToolCall, t: Clock) returns (d: LensDecision<Dict>, event: Event)
      requires Valid() && NotBefore(t)
      modifies this, breaker, allowlist.t1, limiter, limiter.repr, alerts
      ensures Valid() && fresh(d) && fresh(event) && fresh(limiter.repr - old(limiter.repr))
      ensures d.View() == Stamped(audit, Answer(Config(), old(Now()), c, t))
      ensures World() == Turned(Config(), old(World()), ToolTurn(c, t))
      ensures allowed == if limiter.cfg.enabled && d.action == Allow then old(allowed) + [Priced(Config(), c, t)]
                         else old(allowed)
      ensures event.detections == Tier1Findings(Config(), old(Now()), c, t) + StageFindings(Config(), old(Now()), c, t)
      // only the Tier 1 findings can alert, as the others join the event later
      ensures event.thread == c.thread && emitted == old(emitted) + Emission(event)
      ensures alerts.log == Alerted(alerts.cfg, old(alerts.log), Tier1Findings(Config(), old(Now()), c, t), t.inspect)
    {
      hide Alerted, Answer, CallsAfter, BreakerEvents, Priced, ScansAfter, StageFindings, Stamped, Buffered,
           T1.Logged, T1.Report, RL.InOrder, RL.Charged, RL.GrantedCalls, RL.RateLimiter.Valid, T1.ToolDetector.Valid,
           CB.CircuitBreaker.Valid,
           Alerts.AlertSender.Valid;
      var extra;
      WorldIsNow();
      d, extra := AllStages(c, t);
      KeepBooks(d, c, t, old(Now()));
      event := Finish(d, extra, c, t.inspect);
    }

    /** Inspects the call, adds the stages' findings to the emitted event, stamps the decision. */
    method Finish(d: LensDecision<Dict>, extra: seq<Detection>, c: ToolCall, now: real) returns (event: Event)
      requires allowlist.t1.Valid() && allowlist.t1.NotBefore(now) && Buffered() && alerts.Valid()
      modifies this`threadEvents, this`emitted, alerts, allowlist.t1, d
      ensures allowlist.t1.Valid() && Buffered() && alerts.Valid() && fresh(event)
      ensures allowlist.t1.log == T1.Logged(allowlist.t1.cfg, old(allowlist.t1.log), c.tool, c.thread, now)
      ensures event.detections
           == T1.Report(allowlist.t1.cfg, old(allowlist.t1.log), c.tool, c.args, None, c.thread, now) + extra
      ensures event.thread == c.thread && emitted == old(emitted) + Emission(event)
      ensures alerts.log == Alerted(alerts.cfg, old(alerts.log),
        T1.Report(allowlist.t1.cfg, old(allowlist.t1.log), c.tool, c.args, None, c.thread, now), now)
      ensures d.View() == Stamped(audit, old(d.View())) && d.action == old(d.action)
    {
      hide T1.Logged, T1.Report, Stamped, Buffered, Alerted;
      StampedSame(audit, d.View());
      event := InspectToolCall(c, now);
      event.detections := event.detections + extra;
      d.WithAuditHeaders(audit);
    }

    method AllStages(c: ToolCall, t: Clock) returns (d: LensDecision<Dict>, extra: seq<Detection>)
      requires breaker.Valid() && allowlist.t1.Valid() && limiter.Valid() && NotBefore(t)
      modifies breaker, allowlist.t1, limiter, limiter.repr
      ensures allowlist.t1.Valid() && breaker.Valid() && limiter.Valid() && allowlist.t1.NotBefore(t.inspect)
      ensures fresh(d) && fresh(limiter.repr - old(limiter.repr))
      ensures d.View() == Answer(Config(), old(Now()), c, t) && extra == StageFindings(Config(), old(Now()), c, t)
      ensures breaker.log == old(breaker.log) + BreakerEvents(Config(), old(Now()), c, t)
      ensures allowlist.t1.log == ScansAfter(Config(), old(Now()), c, t)
      ensures limiter.log == CallsAfter(Config(), old(Now()), c, t)
    {
      hide Merged, GateDecision, AllowlistDecision, LimitDecision, AllowlistFindings, LimitFindings, GateFindings,
           Priced, Signals, T1.Logged, RL.RateLimiter.Valid, T1.ToolDetector.Valid, CB.CircuitBreaker.Valid;
      ghost var before := Now();
      d, extra := GateStage(t);
      OneStage(GateDecision(Config(), before, t));
      if !d.action.IsTerminal() {
        var more;
        d, more := LaterStages(d, c, t, before);
        extra := extra + more;
      }
    }

    /** Notes an allowed call: the limiter has granted exactly that. */
    ghost method KeepBooks(d: LensDecision<Dict>, c: ToolCall, t: Clock, before: Before)
      requires limiter.log == CallsAfter(Config(), before, c, t) && d.View() == Answer(Config(), before, c, t)
      requires RL.InOrder(before.calls) && RL.Charged(before.calls)
      requires before.calls != [] ==> before.calls[|before.calls| - 1].item.time <= t.limit
      requires limiter.cfg.enabled ==> allowed == RL.GrantedCalls(limiter.cfg, before.calls)
      modifies this`allowed
      ensures Balanced()
      ensures allowed == if limiter.cfg.enabled && d.action == Allow then old(allowed) + [Priced(Config(), c, t)]
                         else old(allowed)
    {
      hide Answer, CallsAfter, Priced, RL.InOrder, RL.Charged, RL.GrantedCalls;
      CallsInOrder(Config(), before, c, t);
      if limiter.cfg.enabled {
        DebitedIffAllowed(Config(), before, c, t);
        if d.action == Allow {
          allowed := allowed + [Priced(Config(), c, t)];
        }
      }
    }

    /** Feeds the outcome of the guarded work into the breaker. */
    method RecordUpstreamResult(now: real, error: bool) returns (raised: bool)
      requires Valid() && breaker.NotBefore(now)
      modifies breaker
      ensures Valid()
      ensures World() == Turned(Config(), old(World()), Report(now, error))
      ensures raised <==>
        breaker.cfg.enabled && old(breaker.phase) == BR.Closed && breaker.cfg.window < 0 && breaker.cfg.minSamples <= 0
    {
      hide ToolsValid, CB.CircuitBreaker.Valid, Alerts.AlertSender.Valid, Buffered, Turned, Seen, Heard;
      ghost var world := World();
      raised := breaker.RecordResponse(now, error);
      WorldAfterReport(world, now, error);
    }

    lemma WorldAfterReport(world: World, at: real, error: bool)
      requires breaker.log == world.heard + if breaker.cfg.enabled then [BR.Response(at, error)] else []
      requires allowlist.t1.log == world.scans && limiter.log == world.calls
      ensures World() == Turned(Config(), world, Report(at, error))
    {
    }

    // ---------------------------------------------------- the checkpoint path

    /** Decides a checkpoint. The verdict of the checkpoint protector and the findings of Tier 1 are
        given, and whether checkpoints of this direction are inspected at all. */
    method DecideCheckpoint(own: Decision<Dict>, findings: seq<Detection>, thread: Option<string>, watched: bool,
                            tier1: seq<Detection>, at: real, now: real)
      returns (d: LensDecision<Dict>, event: Event)
      requires Valid() && breaker.NotBefore(at)
      modifies this`threadEvents, this`emitted, breaker, alerts
      ensures Valid() && fresh(d) && fresh(event)
      ensures World() == Turned(Config(), old(World()), CheckpointTurn(findings, at))
      ensures d.View() == Stamped(audit, Merged([own]))
      ensures event.detections == (if watched then tier1 else []) + findings
      ensures event.thread == thread && emitted == old(emitted) + if watched then Emission(event) else []
      ensures alerts.log == if watched then Alerted(alerts.cfg, old(alerts.log), tier1, now) else old(alerts.log)
    {
      hide ToolsValid, CB.CircuitBreaker.Valid, Alerts.AlertSender.Valid, Buffered, Turned, Seen, Signals, Stamped,
           Merged, Alerted, Emission;
      ghost var world := World();
      d := CheckpointStage(own, findings, at);
      event := InspectCheckpoint(thread, watched, tier1, now);
      WorldAfterCheckpoint(world, findings, at);
      event.detections := event.detections + findings;
      d.WithAuditHeaders(audit);
    }

    method CheckpointStage(own: Decision<Dict>, findings: seq<Detection>, at: real) returns (d: LensDecision<Dict>)
      requires Valid() && breaker.NotBefore(at)
      modifies breaker
      ensures Valid() && fresh(d) && d.View() == Merged([own])
      ensures breaker.log == old(breaker.log) + Signals(breaker.cfg, findings, at)
    {
      hide ToolsValid, CB.CircuitBreaker.Valid, Alerts.AlertSender.Valid, Buffered, Signals, Merged, Merge;
      d := new LensDecision(Neutral());
      var verdict := new LensDecision(own);
      MergedStep([], own);
      MergedNone<Dict>();
      assert [] + [own] == [own];
      d := d.MergeWith(verdict);
      SignalAttacks(findings, at);
    }

    method InspectCheckpoint(thread: Option<string>, watched: bool, tier1: seq<Detection>, now: real)
      returns (event: Event)
      requires Valid()
      modifies this`threadEvents, this`emitted, alerts
      ensures Valid() && fresh(event) && event.thread == thread && event.detections == if watched then tier1 else []
      ensures emitted == old(emitted) + if watched then Emission(event) else []
      ensures alerts.log == if watched then Alerted(alerts.cfg, old(alerts.log), tier1, now) else old(alerts.log)
    {
      hide ToolsValid, CB.CircuitBreaker.Valid, Alerts.AlertSender.Valid, Buffered, Alerted, Emission;
      event := new Event(thread, if watched then tier1 else []);
      if watched {
        Emit(event, now);
      }
    }

    lemma WorldAfterCheckpoint(world: World, findings: seq<Detection>, at: real)
      requires breaker.log == world.heard + Signals(breaker.cfg, findings, at)
      requires allowlist.t1.log == world.scans && limiter.log == world.calls
      ensures World() == Turned(Config(), world, CheckpointTurn(findings, at))
    {
    }

    // ---------------------------------------------------------- the node path

    /** Writes the decision into the state's `__lens__` dictionary, if so configured. */
    method StampState(state: Dict, d: LensDecision<Dict>) returns (raised: bool)
      modifies StampTargets(state)
      ensures raised <==> StampFails(d, old(state.entries))
      ensures !Stamps(d) || raised ==> state.entries == old(state.entries)
      ensures !Stamps(d) || raised ==> forall o :: o in old(StampTargets(state)) ==> o.entries == old(o.entries)
      ensures Stamps(d) && !raised && "__lens__" in old(state.entries) ==>
        var lens := old(state.entries["__lens__"].dict);
        lens.entries == old(state.entries["__lens__"].dict.entries) + StampOf(d.View())
        && (lens != state ==> state.entries == old(state.entries))
      ensures Stamps(d) && !raised && "__lens__" !in old(state.entries) ==>
        && "__lens__" in state.entries && state.entries["__lens__"].Ref? && fresh(state.entries["__lens__"].dict)
        && state.entries == old(state.entries)["__lens__" := state.entries["__lens__"]]
        && state.entries["__lens__"].dict.entries == StampOf(d.View())
    {
      if !Stamps(d) {
        return false;
      }
      var lens: Dict;
      if "__lens__" !in state.entries {
        lens := new Dict(map[]);
        state.entries := state.entries["__lens__" := Ref(lens)];
      } else if state.entries["__lens__"].Ref? {
        lens := state.entries["__lens__"].dict;
      } else {
        return true;
      }
      lens.entries := lens.entries + StampOf(d.View());
      return false;
    }

    /** The headers of the decision, after the state was stamped. */
    method StampHeaders(d: LensDecision<Dict>, ghost content: Graph, ghost at: map<Dict, Dict>, ghost state: Dict,
                    ghost stamp: Option<map<string, Value>>)
      requires Forwarded(content, at, state, stamp)
      modifies d`headers
      ensures Forwarded(content, at, state, stamp) && d.View() == Stamped(audit, old(d.View()))
    {
      d.WithAuditHeaders(audit);
    }

    /** Stamping the place of `state` changes nothing else. */
    method StampForwarded(inspected: Dict, d: LensDecision<Dict>, ghost content: Graph, ghost at: map<Dict, Dict>,
                          ghost state: Dict)
      returns (raised: bool)
      requires Resides(content, at, state)
      requires state in at && inspected == at[state] && state in content
      modifies StampTargets(inspected)
      ensures raised <==> StampFails(d, content[state])
      ensures Forwarded(content, at, state, if Stamps(d) && !raised then Some(StampOf(d.View())) else None)
    {
      hide StampOf;
      raised := StampState(inspected, d);
    }

    /** Breaker and goal guard; the guard's verdict on the state is given. */
    method NodeGate(thread: Option<string>, guard: Decision<Dict>, guardFindings: seq<Detection>, t: Clock)
      returns (d: LensDecision<Dict>, extra: seq<Detection>)
      requires breaker.Valid() && breaker.NotBefore(t.gate) && t.Ordered()
      modifies breaker
      ensures breaker.Valid() && fresh(d)
      ensures d.View() == Merged(GateAndGuard(Config(), old(Now()), thread, guard, t))
      ensures extra == GateAndGuardFindings(Config(), old(Now()), thread, guardFindings, t)
      ensures breaker.log == old(breaker.log) + NodeEvents(Config(), old(Now()), thread, guardFindings, t)
    {
      hide Merged, GateDecision, GateFindings, Signals, CB.CircuitBreaker.Valid;
      ghost var gate := GateDecision(Config(), Now(), t);
      d, extra := GateStage(t);
      OneStage(gate);
      if !d.action.IsTerminal() && thread.Some? && thread.value != "" {
        d := GuardStage(d, gate, guard, guardFindings, t.signal);
        extra := extra + guardFindings;
      }
    }

    method GuardStage(d: LensDecision<Dict>, ghost gate: Decision<Dict>, guard: Decision<Dict>,
                      guardFindings: seq<Detection>, now: real)
      returns (merged: LensDecision<Dict>)
      requires d.View() == Merged([gate]) && breaker.Valid() && breaker.NotBefore(now)
      modifies d, breaker
      ensures breaker.Valid() && (merged == d || fresh(merged)) && merged.View() == Merged([gate, guard])
      ensures breaker.log == old(breaker.log) + Signals(breaker.cfg, guardFindings, now)
    {
      hide Merged, Merge, Signals, CB.CircuitBreaker.Valid;
      var own := new LensDecision(guard);
      MergedStep([gate], guard);
      assert [gate] + [guard] == [gate, guard];
      merged := d.MergeWith(own);
      SignalAttacks(guardFindings, now);
    }

    /** Breaker, goal guard and redactor, each only while none before it blocks. */
    method NodeStages(state: Dict, ghost g: Graph, thread: Option<string>, guard: Decision<Dict>,
                      guardFindings: seq<Detection>, t: Clock)
      returns (d: LensDecision<Dict>, extra: seq<Detection>, ghost twin: map<Dict, Dict>, ghost hits: set<string>)
      requires breaker.Valid() && breaker.NotBefore(t.gate) && t.Ordered()
      requires state in g && Closed(g) && Shows(g)
      modifies breaker
      ensures breaker.Valid() && fresh(d) && forall o :: o in twin ==> fresh(twin[o]) && twin[o] !in g
      ensures breaker.log == old(breaker.log) + NodeEvents(Config(), old(Now()), thread, guardFindings, t)
      ensures extra == GateAndGuardFindings(Config(), old(Now()), thread, guardFindings, t)
        + RedactorFindings(redactor.cfg, GateAndGuard(Config(), old(Now()), thread, guard, t), hits)
      ensures var first := GateAndGuard(Config(), old(Now()), thread, guard, t);
        NodeAnswer(redactor.cfg, first, g, state, twin, hits, d.View())
      ensures Merged(GateAndGuard(Config(), old(Now()), thread, guard, t)).action != Block && redactor.cfg.enabled ==>
        PR.Following(redactor.cfg, g, twin, PR.Visits(g, state))
    {
      hide Merged, PR.Following, PR.Notes, PR.Visits, PR.Outcome, PR.Found, GateDecision, GateFindings, Signals,
           AsksGuard, GateAndGuard, GateAndGuardFindings, NodeEvents;
      twin, hits := map[], {};
      ghost var first := GateAndGuard(Config(), Now(), thread, guard, t);
      d, extra := NodeGate(thread, guard, guardFindings, t);
      if !d.action.IsTerminal() {
        var own, found;
        own, found, twin, hits := redactor.Evaluate(state, g);
        MergedStep(first, own.View());
        d := d.MergeWith(own);
        extra := extra + found;
        if !redactor.cfg.enabled {
          twin := map[];
        }
      }
    }

    /** Scans the attack surface with the first node that is inspected; `surface` is what it finds. */
    method BootScan(surface: seq<Detection>, now: real)
      requires Buffered() && alerts.Valid()
      modifies this`surfaceScanned, this`threadEvents, this`emitted, alerts
      ensures Buffered() && alerts.Valid() && surfaceScanned && emitted == old(emitted)
      ensures alerts.log
           == if old(surfaceScanned) then old(alerts.log) else Alerted(alerts.cfg, old(alerts.log), surface, now)
    {
      hide Alerted, Buffered;
      if surfaceScanned {
        return;
      }
      surfaceScanned := true;
      var event := new Event(None, surface);
      Emit(event, now);
    }

    /** Emits the event of a node, with the findings of Tier 1. */
    method InspectNode(thread: Option<string>, tier1: seq<Detection>, surface: seq<Detection>, now: real)
      returns (event: Event)
      requires Buffered() && alerts.Valid()
      modifies this`surfaceScanned, this`threadEvents, this`emitted, alerts
      ensures Buffered() && alerts.Valid() && fresh(event) && surfaceScanned
      ensures event.thread == thread && event.detections == tier1 && emitted == old(emitted) + Emission(event)
      ensures alerts.log == NodeAlerts(alerts.cfg, old(alerts.log), old(surfaceScanned), surface, tier1, now)
    {
      hide Alerted, Buffered;
      BootScan(surface, now);
      event := new Event(thread, tier1);
      Emit(event, now);
    }

    /** Emits the event, and stamps the decision on the state that will be forwarded, which is
        the place of `state`. */
    method NodeForward(d: LensDecision<Dict>, extra: seq<Detection>, inspected: Dict, thread: Option<string>,
                       tier1: seq<Detection>, surface: seq<Detection>, now: real, ghost content: Graph,
                       ghost at: map<Dict, Dict>, ghost state: Dict)
      returns (event: Event, raised: bool)
      requires Valid() && Resides(content, at, state)
      requires state in at && inspected == at[state] && state in content
      modifies this`surfaceScanned, this`threadEvents, this`emitted, alerts, d, StampTargets(inspected)
      ensures Valid() && fresh(event) && event.detections == tier1 + extra && surfaceScanned
      ensures event.thread == thread && emitted == old(emitted) + Emission(event)
      ensures alerts.log == NodeAlerts(alerts.cfg, old(alerts.log), old(surfaceScanned), surface, tier1, now)
      ensures !raised ==> d.View() == Stamped(audit, old(d.View()))
      ensures Stamps(d) == old(Stamps(d)) && d.modifiedState == old(d.modifiedState)
      ensures raised <==> StampFails(d, content[state])
      ensures Forwarded(content, at, state, if Stamps(d) && !raised then Some(StampOf(old(d.View()))) else None)
    {
      hide Buffered, Stamped, StampOf, NodeAlerts, Resides, Forwarded, Emission, StampTargets,
           ToolsValid, CB.CircuitBreaker.Valid, Alerts.AlertSender.Valid;
      event := InspectNode(thread, tier1, surface, now);
      event.detections := event.detections + extra;
      raised := StampAll(inspected, d, content, at, state);
    }

    /** Stamps the place of `state`, then the headers. */
    method StampAll(inspected: Dict, d: LensDecision<Dict>, ghost content: Graph, ghost at: map<Dict, Dict>,
                    ghost state: Dict)
      returns (raised: bool)
      requires Resides(content, at, state)
      requires state in at && inspected == at[state] && state in content
      modifies d, StampTargets(inspected)
      ensures !raised ==> d.View() == Stamped(audit, old(d.View()))
      ensures Stamps(d) == old(Stamps(d)) && d.modifiedState == old(d.modifiedState)
      ensures raised <==> StampFails(d, content[state])
      ensures Forwarded(content, at, state, if Stamps(d) && !raised then Some(StampOf(old(d.View()))) else None)
    {
      hide Stamped, StampOf, Resides, Forwarded;
      StampedKeeps(audit, d.View());
      ghost var stamp := if Stamps(d) && !StampFails(d, content[state]) then Some(StampOf(d.View())) else None;
      raised := StampForwarded(inspected, d, content, at, state);
      assert Forwarded(content, at, state, stamp);
      if !raised {
        StampHeaders(d, content, at, state, stamp);
      }
    }

    /** Decides a node: breaker, goal guard and redactor, then Tier 1 inspection, whose findings
        `tier1` are given. `g` shows the caller's state; `answer` is the answer before its headers. */
    method DecideNode(state: Dict, ghost g: Graph, thread: Option<string>, guard: Decision<Dict>,
                      guardFindings: seq<Detection>, tier1: seq<Detection>, surface: seq<Detection>, t: Clock)
      returns (d: LensDecision<Dict>, event: Event, raised: bool, ghost answer: Decision<Dict>,
               ghost twin: map<Dict, Dict>, ghost hits: set<string>, ghost copies: Graph)
      requires Valid() && NotBefore(t) && guard.modifiedState.None?
      requires state in g && Closed(g) && Shows(g)
      modifies this`surfaceScanned, this`threadEvents, this`emitted, breaker, alerts, StampTargets(state)
      ensures Valid() && fresh(d) && fresh(event)
      ensures World() == Turned(Config(), old(World()), NodeTurn(thread, guard, guardFindings, t))
      ensures event.detections == tier1 + (GateAndGuardFindings(Config(), old(Now()), thread, guardFindings, t)
        + RedactorFindings(redactor.cfg, GateAndGuard(Config(), old(Now()), thread, guard, t), hits))
      ensures event.thread == thread && emitted == old(emitted) + Emission(event) && surfaceScanned
      ensures alerts.log == NodeAlerts(alerts.cfg, old(alerts.log), old(surfaceScanned), surface, tier1, t.inspect)
      ensures var first := GateAndGuard(Config(), old(Now()), thread, guard, t);
        NodeAnswer(redactor.cfg, first, g, state, twin, hits, answer)
      ensures !raised ==> d.View() == Stamped(audit, answer)
      ensures raised <==> StampFails(d, g[state])
      // the redacted copy is forwarded, and the caller's state is untouched ...
      ensures answer.modifiedState.Some? ==>
        && Shows(g) && state in twin && answer.modifiedState == Some(twin[state])
        && Followed(redactor.cfg, g, twin, PR.Visits(g, state), copies)
        && Forwarded(copies, twin, state, if Stamps(d) && !raised then Some(StampOf(answer)) else None)
      // ... or the caller's state itself
      ensures answer.modifiedState.None? ==>
        Forwarded(g, Identity(g), state, if Stamps(d) && !raised then Some(StampOf(answer)) else None)
    {
      hide Merged, PR.Visits, GateAndGuard, NodeAnswer, Stamped, Buffered, StampTargets, Followed, NodeAlerts,
           ToolsValid,
           Emission, GateAndGuardFindings, RedactorFindings, NodeEvents, Forwarded, Resides, StampOf, Identity, Closed,
           Turned, Seen, Heard, CB.CircuitBreaker.Valid, Alerts.AlertSender.Valid;
      var extra, inspected;
      ghost var at;
      ghost var before, world := Now(), World();
      WorldIsNow();
      d, extra, twin, hits, inspected, at, copies := NodeDecision(state, g, thread, guard, guardFindings, t);
      answer := d.View();
      event, raised := NodeForward(d, extra, inspected, thread, tier1, surface, t.inspect, copies, at, state);
      WorldAfterNode(world, before, thread, guard, guardFindings, t);
    }

    lemma WorldAfterNode(world: World, before: Before, thread: Option<string>, guard: Decision<Dict>,
                         guardFindings: seq<Detection>, t: Clock)
      requires before == Seen(Config(), world)
      requires breaker.log == world.heard + NodeEvents(Config(), before, thread, guardFindings, t)
      requires allowlist.t1.log == world.scans && limiter.log == world.calls
      ensures World() == Turned(Config(), world, NodeTurn(thread, guard, guardFindings, t))
    {
    }

    lemma WorldIsNow()
      requires breaker.Valid()
      ensures Seen(Config(), World()) == Now()
    {
    }

    /** The merged decision, and the state that will be forwarded: its dictionaries are `at`
        places of their own, or where they are, and hold `content`. */
    method NodeDecision(state: Dict, ghost g: Graph, thread: Option<string>, guard: Decision<Dict>,
                        guardFindings: seq<Detection>, t: Clock)
      returns (d: LensDecision<Dict>, extra: seq<Detection>, ghost twin: map<Dict, Dict>, ghost hits: set<string>,
               inspected: Dict, ghost at: map<Dict, Dict>, ghost content: Graph)
      requires Valid() && breaker.NotBefore(t.gate) && t.Ordered() && guard.modifiedState.None?
      requires state in g && Closed(g) && Shows(g)
      modifies breaker
      ensures Valid() && fresh(d)
      ensures breaker.log == old(breaker.log) + NodeEvents(Config(), old(Now()), thread, guardFindings, t)
      ensures extra == GateAndGuardFindings(Config(), old(Now()), thread, guardFindings, t)
        + RedactorFindings(redactor.cfg, GateAndGuard(Config(), old(Now()), thread, guard, t), hits)
      ensures var first := GateAndGuard(Config(), old(Now()), thread, guard, t);
        NodeAnswer(redactor.cfg, first, g, state, twin, hits, d.View())
      ensures state in at && state in content && inspected == at[state] && Resides(content, at, state)
      ensures SameStampEntry(content[state], g[state])
      ensures if d.modifiedState.Some?
        then
          && at == twin && d.modifiedState == Some(inspected) && fresh(StampTargets(inspected))
          && Followed(redactor.cfg, g, at, PR.Visits(g, state), content)
        else inspected == state && at == Identity(g) && content == g
    {
      hide Merged, PR.Following, PR.Notes, PR.Visits, PR.Outcome, GateAndGuard, NodeAnswer, StampTargets, Followed,
           ToolsValid, Buffered, CB.CircuitBreaker.Valid, Alerts.AlertSender.Valid, GateAndGuardFindings,
           RedactorFindings, NodeEvents, Resides, Identity;
      d, extra, twin, hits := NodeStages(state, g, thread, guard, guardFindings, t);
      ForwardedState(Config(), redactor.cfg, old(Now()), thread, guard, t, g, state, twin, hits, d.View());
      inspected, at, content := state, Identity(g), g;
      IdentityResides(g, state);
      if d.modifiedState.Some? && d.modifiedState.value.entries != map[] {
        inspected := d.modifiedState.value;
        at, content := twin, map o | o in twin :: twin[o].entries;
        CopyResides(redactor.cfg, g, twin, PR.Visits(g, state), content, state);
      }
    }

    predicate Stamps(d: LensDecision<Dict>)
      reads d
    {
      audit.enabled && stampState && d.triggeredBy != []
    }

    /** Python raises AttributeError when the entry to be stamped is no dictionary. */
    predicate StampFails(d: LensDecision<Dict>, entries: map<string, Value>)
      reads d
    {
      Stamps(d) && "__lens__" in entries && !entries["__lens__"].Ref?
    }
  }

  /** What stamping adds to the state's `__lens__` dictionary. */
  function StampOf(d: Decision<Dict>): map<string, Value> {
    map["triggered" := Opaque(1), "action" := Text(ActionName(d.action)),
        "reason" := if d.reason.Some? then Text(d.reason.value) else Opaque(0),
        "triggered_by" := List(Texts(d.triggeredBy))]
  }

  /** The dictionaries `at[o]` hold `content[o]`. If a stamp was made on the state, then a fresh
      `__lens__` entry was added to it, or the dictionary that was there has grown by the stamp,
      and nothing else has changed. */
  ghost predicate Forwarded(content: Graph, at: map<Dict, Dict>, state: Dict, stamp: Option<map<string, Value>>)
    reads at.Values, if state in at then StampTargets(at[state]) else {}
  {
    && state in at && at.Keys <= content.Keys
    && if stamp.None? then forall o :: o in at ==> at[o].entries == content[o]
       else if "__lens__" in content[state] then
         && content[state]["__lens__"].Ref? && content[state]["__lens__"].dict in at.Values
         && forall o :: o in at ==>
              at[o].entries == if at[o] == content[state]["__lens__"].dict then content[o] + stamp.value
                               else content[o]
       else
         && "__lens__" in at[state].entries && at[state].entries["__lens__"].Ref?
         && at[state].entries["__lens__"].dict !in at.Values
         && at[state].entries["__lens__"].dict.entries == stamp.value
         && forall o :: o in at ==>
              at[o].entries == if o == state then content[o]["__lens__" := at[state].entries["__lens__"]]
                               else content[o]
  }

  /** A place for every dictionary of its own. */
  ghost predicate Resides(content: Graph, at: map<Dict, Dict>, state: Dict)
    reads at.Values
  {
    && state in at && at.Keys <= content.Keys
    && (forall o, p :: o in at && p in at && o != p ==> at[o] != at[p])
    && (forall o :: o in at ==> at[o].entries == content[o])
    && ("__lens__" in content[state] && content[state]["__lens__"].Ref? ==>
          content[state]["__lens__"].dict in at.Values)
  }

  function Identity(g: Graph): map<Dict, Dict> {
    map o | o in g :: o
  }

  /** The only state that an answer carries is the redacted copy, which is not empty and shares
      nothing with the caller's state. */
  lemma ForwardedState(s: Settings, cfg: PR.Config, b: Before, thread: Option<string>, guard: Decision<Dict>, t: Clock,
                       g: Graph, state: Dict, twin: map<Dict, Dict>, hits: set<string>, answer: Decision<Dict>)
    requires guard.modifiedState.None? && state in g
    requires NodeAnswer(cfg, GateAndGuard(s, b, thread, guard, t), g, state, twin, hits, answer)
    requires Merged(GateAndGuard(s, b, thread, guard, t)).action != Block && cfg.enabled ==>
      PR.Following(cfg, g, twin, PR.Visits(g, state))
    ensures answer.modifiedState.Some? ==>
      && state in twin && answer.modifiedState == Some(twin[state])
      && twin[state].entries != map[] && StampTargets(twin[state]) <= twin.Values
      && SameStampEntry(twin[state].entries, g[state])
      && Merged(GateAndGuard(s, b, thread, guard, t)).action != Block && cfg.enabled
  {
    hide Merged, GateAndGuard, PR.Notes, PR.Visits;
    var first := GateAndGuard(s, b, thread, guard, t);
    FirstHasNoState(s, b, thread, guard, t);
    MergedStep(first, Neutral());
    if Merged(first).action != Block && cfg.enabled {
      var outcome := PR.Outcome(cfg, hits, twin[state]);
      MergedStep(first, outcome);
      MergeState(Merged(first), outcome);
      MergeState(Merged(first), Neutral());
      if hits != {} {
        HitsNeedEntries(cfg, g, state, hits);
      }
      PR.CopyKinds(cfg, g, twin, PR.Visits(g, state), state);
      CopyTargets(cfg, g, twin, PR.Visits(g, state), state);
    } else {
      MergeState(Merged(first), Neutral());
    }
  }

  /** `PR.Following` of the contents that the copies had at some moment. */
  ghost predicate Followed(cfg: PR.Config, g: Graph, twin: map<Dict, Dict>, done: multiset<PR.Slot>, copies: Graph) {
    && Separate(twin) && twin.Keys <= g.Keys && copies.Keys == twin.Keys
    && forall o :: o in twin ==> EntryRefs(g[o]) <= twin.Keys && copies[o] == PR.Rewritten(cfg, g, o, done, twin)
  }

  lemma CopyResides(cfg: PR.Config, g: Graph, twin: map<Dict, Dict>, done: multiset<PR.Slot>, copies: Graph,
                   state: Dict)
    requires PR.Following(cfg, g, twin, done) && copies == (map o | o in twin :: twin[o].entries) && state in twin
    ensures Followed(cfg, g, twin, done, copies) && Resides(copies, twin, state)
    ensures SameStampEntry(copies[state], g[state])
  {
    CopyTargets(cfg, g, twin, done, state);
  }

  lemma IdentityResides(g: Graph, state: Dict)
    requires state in g && Closed(g) && Shows(g)
    ensures state in Identity(g) && Identity(g)[state] == state && Resides(g, Identity(g), state)
  {
    if "__lens__" in g[state] {
      InEntryRefs(g[state], "__lens__");
      var v := g[state]["__lens__"];
      assert v.Ref? ==> v.dict in Refs(v) && Identity(g)[v.dict] in Identity(g).Values;
    }
  }

  lemma CopyTargets(cfg: PR.Config, g: Graph, twin: map<Dict, Dict>, done: multiset<PR.Slot>, state: Dict)
    requires PR.Following(cfg, g, twin, done) && state in twin
    ensures StampTargets(twin[state]) <= twin.Values && SameStampEntry(twin[state].entries, g[state])
  {
    PR.RewrittenKinds(cfg, g, state, done, twin);
  }

  /** Two states that a decision can, or cannot, be stamped on alike. */
  predicate SameStampEntry(a: map<string, Value>, b: map<string, Value>) {
    && ("__lens__" in a <==> "__lens__" in b)
    && ("__lens__" in a && "__lens__" in b ==> (a["__lens__"].Ref? <==> b["__lens__"].Ref?))
  }

  function Texts(strings: seq<string>): seq<Value> {
    seq(|strings|, k requires 0 <= k < |strings| => Text(strings[k]))
  }

  /** What stamping a state may write to. */
  function StampTargets(state: Dict): set<Dict>
    reads state
  {
    {state}
    + if "__lens__" in state.entries && state.entries["__lens__"].Ref? then {state.entries["__lens__"].dict} else {}
  }

  /** No more can be spent through the whole pipeline than the limiter's curve allows: the tool
      calls answered `allow`, on every key and in every interval. */
  lemma AllowedCallsBounded(lens: Lens, key: string, a: real, b: real)
    requires lens.Valid() && lens.limiter.cfg.enabled && a <= b
    requires lens.limiter.cfg.refill >= 0.0 || lens.limiter.cfg.capacity < 1.0
    ensures RL.Spend(lens.allowed, key, a, b) <= Max(0.0, TB.Curve(lens.limiter.cfg, a, b))
  {
    RL.LedgerBound(lens.limiter.cfg, lens.limiter.log, key, a, b);
  }
}
