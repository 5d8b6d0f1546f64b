/** What callers of the decision paths can rely on, said of the breaker's state, the allow-list, the
    limiter and the guard themselves (lens.py). */
module PipelineLaws {
  import opened Common
  import opened Decisions
  import opened Histories
  import opened PyObjects
  import opened Pipeline
  import BK = BucketKeys
  import BL = BreakerLaws
  import BR = Breaker
  import CB = CircuitBreaker
  import PR = Redactor
  import RL = RateLimiter
  import T1 = ToolDetector
  import TA = ToolAllowlist
  import TB = TokenBucket
  import RedactorLaws

  // ------------------------------------------------------------------ the gate

  /** The breaker has a say, and says no. */
  predicate Refused(s: Settings, b: Before, t: Clock) {
    s.breaker.enabled && !BR.Admits(s.breaker, b.breaker, t.gate)
  }

  lemma GateIs(s: Settings, b: Before, t: Clock)
    ensures GateDecision(s, b, t).action == if Refused(s, b, t) then Block else Allow
    ensures !Refused(s, b, t) ==> GateDecision(s, b, t) == Neutral() && GateFindings(s, b, t) == []
    ensures Refused(s, b, t) ==> GateDecision(s, b, t).statusCode == Some(503)
    ensures PassesGate(s, b, t) <==> !Refused(s, b, t)
  {
  }

  // ------------------------------------------------------------ the tool path

  /** Block mode is on, and the tool is not listed or a finding on the call is. */
  predicate Banned(s: Settings, b: Before, c: ToolCall, t: Clock) {
    && s.allowlist.enabled && s.allowlist.mode == TA.BlockMode
    && TA.SpeaksAgainst(s.allowlist, c.tool, Report(s, b, c, t))
  }

  lemma AllowlistIs(s: Settings, b: Before, c: ToolCall, t: Clock)
    ensures AllowlistDecision(s, b, c, t).action == if Banned(s, b, c, t) then Block else Allow
    ensures Banned(s, b, c, t) ==> AllowlistDecision(s, b, c, t).statusCode == Some(403)
    ensures !Banned(s, b, c, t) ==> AllowlistDecision(s, b, c, t).Core() == Neutral<Dict>().Core()
  {
    hide TA.Triggered, TA.SpeaksAgainst, Report;
    TA.VerdictIff<Dict>(s.allowlist, c.tool, Report(s, b, c, t));
  }

  /** A tool call is allowed iff the breaker, if enabled, admits a request, the call is not banned,
      and the limiter, if enabled, can afford it. The status of a refusal tells who refused. */
  lemma ToolAnswer(s: Settings, b: Before, c: ToolCall, t: Clock)
    ensures var d := Answer(s, b, c, t);
      if Refused(s, b, t) then d.action == Block && d.statusCode == Some(503)
      else if Banned(s, b, c, t) then d.action == Block && d.statusCode == Some(403)
      else if s.limiter.enabled && !Affordable(s, b, c, t) then
        if s.limiter.mode == TB.BlockMode then d.action == Block && d.statusCode == Some(429)
        else d.action == Throttle && d.statusCode == None
      else d.action == Allow && d.statusCode == None
  {
    hide Merged, GateDecision, AllowlistDecision, LimitDecision, Banned, Affordable, Stages;
    var gate, verdict, limit := GateDecision(s, b, t), AllowlistDecision(s, b, c, t), LimitDecision(s, b, c, t);
    GateIs(s, b, t);
    AllowlistIs(s, b, c, t);
    LimitIs(s, b, c, t);
    StagesAre(s, b, c, t);
    MergedCore(gate, verdict, limit);
  }

  lemma StagesAre(s: Settings, b: Before, c: ToolCall, t: Clock)
    ensures var gate, verdict := GateDecision(s, b, t), AllowlistDecision(s, b, c, t);
      Stages(s, b, c, t)
      == if gate.action == Block then [gate]
         else if verdict.action == Block then [gate, verdict] else [gate, verdict, LimitDecision(s, b, c, t)]
  {
    hide GateDecision, AllowlistDecision, LimitDecision;
  }

  lemma LimitIs(s: Settings, b: Before, c: ToolCall, t: Clock)
    ensures var d := LimitDecision(s, b, c, t);
      if s.limiter.enabled && !Affordable(s, b, c, t)
      then
        && d.action == (if s.limiter.mode == TB.BlockMode then Block else Throttle)
        && d.statusCode == (if s.limiter.mode == TB.BlockMode then Some(429) else None)
      else d == Neutral()
  {
    hide TB.Admits, TB.RetryAfter, TB.TokensAt, On, Priced;
  }

  /** One, two or three stages merged: the first of the highest rank decides. */
  lemma MergedCore<S>(a: Decision<S>, b: Decision<S>, c: Decision<S>)
    ensures a.action != Allow ==> Merged([a]).Core() == a.Core()
    ensures a == Neutral() && b.action != Allow ==> Merged([a, b]).Core() == b.Core()
    ensures a == Neutral() && b.Core() == Neutral<S>().Core() ==>
      Merged([a, b, c]).Core() == if c.action == Allow then Neutral<S>().Core() else c.Core()
  {
    hide Merge;
    MergedNone<S>();
    MergedStep([], a);
    MergedStep([a], b);
    MergedStep([a, b], c);
    assert [] + [a] == [a] && [a] + [b] == [a, b] && [a, b] + [c] == [a, b, c];
    MergeTriggers(Neutral<S>(), a);
    MergeTriggers(Merged([a]), b);
    MergeTriggers(Merged([a, b]), c);
  }

  /** What a call is charged, when, and on whose bucket: with one part keyed on, two calls share a
      bucket iff they have the same tenant, the same thread or the same tool. */
  lemma PricedIs(s: Settings, c: ToolCall, t: Clock, c': ToolCall, t': Clock)
    ensures var charge := Priced(s, c, t).item;
      var d := if s.limiter.sizeDivisor >= 1 then s.limiter.sizeDivisor as real else 1.0;
      charge.time == t.limit && (charge.cost - 1.0) * d <= |c.args| as real < charge.cost * d
    ensures var same := Priced(s, c, t).key == Priced(s, c', t').key;
      var (tenants, threads, tools) := (s.limiter.keyByTenant, s.limiter.keyByThread, s.limiter.keyByTool);
      && (tenants && !threads && !tools ==> (same <==> BK.Given(c.tenant) == BK.Given(c'.tenant)))
      && (!tenants && threads && !tools ==> (same <==> BK.Given(c.thread) == BK.Given(c'.thread)))
      && (!tenants && !threads && tools ==> (same <==> c.tool == c'.tool))
      && (!tenants && !threads && !tools ==> same)
  {
    hide BK.KeyOf, BK.IdentityOf, RL.CostOf;
    BK.OnePartDecides(s.limiter, c.tool, c.thread, c.tenant, c'.tool, c'.thread, c'.tenant);
  }

  /** In block mode a tool outside the list is never answered `allow`. */
  lemma OutsideListNeverAllowed(s: Settings, b: Before, c: ToolCall, t: Clock)
    requires s.allowlist.enabled && s.allowlist.mode == TA.BlockMode
    requires s.allowlist.allowed.Some? && c.tool !in s.allowlist.allowed.value
    ensures Answer(s, b, c, t).action == Block
  {
    hide Answer, Affordable;
    ToolAnswer(s, b, c, t);
    assert Banned(s, b, c, t);
  }

  lemma SignalsAre(cfg: BR.Config, findings: seq<Detection>, at: real)
    ensures var signals := Signals(cfg, findings, at);
      if cfg.enabled && cfg.failClosed
      then
        && |signals| == |findings|
        && forall k :: 0 <= k < |findings| ==> signals[k] == BR.Attack(at, findings[k].severity)
      else signals == []
  {
  }

  /** The request comes first, then the signals. */
  lemma RequestFirst(enabled: bool, gate: real, signals: seq<BR.Event>)
    ensures var heard := (if enabled then [BR.Request(gate)] else []) + signals;
      && |heard| == |signals| + (if enabled then 1 else 0)
      && (enabled ==> heard[0] == BR.Request(gate) && forall k :: 0 <= k < |signals| ==> heard[k + 1] == signals[k])
  {
  }

  /** What the breaker hears of a tool call: the request, and one attack per finding of an
      allow-list that was asked, which holds the listed ones, if it counts attacks. */
  lemma ToolCallHeard(s: Settings, b: Before, c: ToolCall, t: Clock)
    ensures var heard := BreakerEvents(s, b, c, t);
      var requests := if s.breaker.enabled then 1 else 0;
      var listed := TA.Relevant(s.allowlist, Report(s, b, c, t));
      && (s.breaker.enabled ==> heard != [] && heard[0] == BR.Request(t.gate))
      && (if s.breaker.enabled && s.breaker.failClosed && !Refused(s, b, t) && s.allowlist.enabled
          then
            && |heard| == 1 + |listed|
            && forall k :: 0 <= k < |listed| ==> heard[k + 1] == BR.Attack(t.signal, listed[k].severity)
          else |heard| == requests)
  {
    hide TA.Relevant, Report, GateDecision, Signals, Refused;
    GateIs(s, b, t);
    var found := AllowlistFindings(s, b, c, t);
    SignalsAre(s.breaker, found, t.signal);
    RequestFirst(s.breaker.enabled, t.gate, if Refused(s, b, t) then [] else Signals(s.breaker, found, t.signal));
  }

  /** When allow-list and inspection scan a call at the same instant, the second scan reports the same
      enumeration as if the first had not been made, now and ever after. */
  lemma ScannedTwice(cfg: T1.Config, log: seq<T1.Scan>, tool: string, thread: Option<string>, now: real)
    requires T1.InOrder(log) && T1.Tracks(cfg, thread) && (log != [] ==> log[|log| - 1].item.at <= now)
    ensures var once := T1.Logged(cfg, log, tool, thread, now);
      var twice := T1.Logged(cfg, once, tool, thread, now);
      && (T1.Fires(cfg, twice, |twice| - 1) <==> T1.Fires(cfg, once, |once| - 1))
      && T1.Fires(cfg, twice, |twice| - 2) == T1.Fires(cfg, twice, |twice| - 1)
  {
    var once := T1.Logged(cfg, log, tool, thread, now);
    var twice := T1.Logged(cfg, once, tool, thread, now);
    T1.InOrderStep(log, once[|log|]);
    T1.InOrderStep(once, twice[|once|]);
    T1.RescanAgrees(cfg, twice, |log|);
    T1.SecondScanSuffices(cfg, twice, |log|, |log| + 1, |log| + 1);
    assert Without(twice, |log|) == once;
  }

  // ------------------------------------------------------------ the node path

  /** There is a thread to look up an intent for. */
  predicate OnThread(thread: Option<string>) {
    thread.Some? && thread.value != ""
  }

  lemma GuardAsked(s: Settings, b: Before, thread: Option<string>, t: Clock)
    ensures AsksGuard(s, b, thread, t) <==> OnThread(thread) && !Refused(s, b, t)
  {
    GateIs(s, b, t);
  }

  /** On a thread, and let through by the breaker, a node gets the guard's verdict: action, reason
      and status are the guard's unless it allows, all its triggers and findings are reported, and the
      breaker hears one attack per finding if it counts attacks. */
  lemma GuardReaches(s: Settings, b: Before, thread: Option<string>, guard: Decision<Dict>,
                     guardFindings: seq<Detection>, t: Clock)
    requires OnThread(thread) && !Refused(s, b, t)
    ensures var d := Merged(GateAndGuard(s, b, thread, guard, t));
      && d.action == guard.action && (guard.action != Allow ==> d.Core() == guard.Core())
      && d.triggeredBy == guard.triggeredBy
    ensures GateAndGuardFindings(s, b, thread, guardFindings, t) == guardFindings
    ensures var heard := NodeEvents(s, b, thread, guardFindings, t);
      && (s.breaker.enabled ==> heard != [] && heard[0] == BR.Request(t.gate))
      && (if s.breaker.enabled && s.breaker.failClosed
          then
            && |heard| == 1 + |guardFindings|
            && forall k :: 0 <= k < |guardFindings| ==> heard[k + 1] == BR.Attack(t.signal, guardFindings[k].severity)
          else |heard| == if s.breaker.enabled then 1 else 0)
  {
    hide Merged, Merge, GateDecision, GateFindings, AsksGuard, Signals, Refused;
    GuardAsked(s, b, thread, t);
    GateIs(s, b, t);
    MergedTwo(guard);
    SignalsAre(s.breaker, guardFindings, t.signal);
    RequestFirst(s.breaker.enabled, t.gate, Signals(s.breaker, guardFindings, t.signal));
  }

  lemma MergedTwo(guard: Decision<Dict>)
    ensures var d := Merged([Neutral(), guard]);
      && d.action == guard.action && (guard.action != Allow ==> d.Core() == guard.Core())
      && d.triggeredBy == guard.triggeredBy
  {
    MergedNone<Dict>();
    MergedStep([], Neutral<Dict>());
    MergedStep([Neutral<Dict>()], guard);
    assert [] + [Neutral<Dict>()] == [Neutral()] && [Neutral<Dict>()] + [guard] == [Neutral(), guard];
  }

  /** A guard that blocks blocks the node, whatever the redactor would do. */
  lemma GuardBlocks(s: Settings, cfg: PR.Config, b: Before, thread: Option<string>, guard: Decision<Dict>, t: Clock,
                    g: Graph, state: Dict, twin: map<Dict, Dict>, hits: set<string>, answer: Decision<Dict>)
    requires OnThread(thread) && !Refused(s, b, t) && state in g
    requires NodeAnswer(cfg, GateAndGuard(s, b, thread, guard, t), g, state, twin, hits, answer)
    ensures guard.action == Block ==> answer.action == Block && answer.Core() == guard.Core()
    ensures forall x :: x in guard.triggeredBy ==> x in answer.triggeredBy
  {
    hide Merged, GateAndGuard, PR.Notes, PR.Visits, PR.Outcome;
    GuardReaches(s, b, thread, guard, [], t);
    var first := GateAndGuard(s, b, thread, guard, t);
    MergedStep(first, Neutral());
    if Merged(first).action != Block && cfg.enabled {
      MergedStep(first, PR.Outcome(cfg, hits, twin[state]));
    }
  }

  /** Without a thread, or when the breaker refuses, the guard is not asked: its verdict does not show. */
  lemma GuardIgnored(s: Settings, b: Before, thread: Option<string>, guard: Decision<Dict>, guard': Decision<Dict>,
                     findings: seq<Detection>, findings': seq<Detection>, t: Clock)
    requires !OnThread(thread) || Refused(s, b, t)
    ensures GateAndGuard(s, b, thread, guard, t) == GateAndGuard(s, b, thread, guard', t)
    ensures NodeEvents(s, b, thread, findings, t) == NodeEvents(s, b, thread, findings', t)
    ensures GateAndGuardFindings(s, b, thread, findings, t) == GateAndGuardFindings(s, b, thread, findings', t)
    ensures Merged(GateAndGuard(s, b, thread, guard, t)).action == if Refused(s, b, t) then Block else Allow
  {
    hide Merged, GateDecision, AsksGuard;
    GuardAsked(s, b, thread, t);
    GateIs(s, b, t);
    OneStage(GateDecision(s, b, t));
    AllowedIffAllAllow([GateDecision(s, b, t)]);
    assert [GateDecision(s, b, t)][0] == GateDecision(s, b, t);
  }

  /** What the redactor, asked last, makes of an answer: it blocks with 400 in block mode iff
      something is noted, and else redacts, unless breaker or guard have refused or throttled. */
  lemma RedactorDecides(s: Settings, cfg: PR.Config, b: Before, thread: Option<string>, guard: Decision<Dict>, t: Clock,
                        g: Graph, state: Dict, twin: map<Dict, Dict>, hits: set<string>, answer: Decision<Dict>)
    requires state in g
    requires NodeAnswer(cfg, GateAndGuard(s, b, thread, guard, t), g, state, twin, hits, answer)
    requires Merged(GateAndGuard(s, b, thread, guard, t)).action == Allow
    ensures answer.action
         == if !cfg.enabled || hits == {} then Allow else if cfg.mode == PR.BlockMode then Block else Redact
    ensures answer.action == Block ==> answer.statusCode == Some(400) && answer.reason == Some("pii_in_state")
  {
    hide Merged, GateAndGuard, PR.Notes, PR.Visits, Merge;
    var first := GateAndGuard(s, b, thread, guard, t);
    MergedStep(first, Neutral());
    MergeTriggers(Merged(first), Neutral<Dict>());
    if cfg.enabled {
      var outcome := PR.Outcome(cfg, hits, twin[state]);
      MergedStep(first, outcome);
      MergeTriggers(Merged(first), outcome);
    }
  }
}
