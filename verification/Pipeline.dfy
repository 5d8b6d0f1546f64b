/** The decision paths of the orchestrator as functions (lens.py): which stages run, what they
    decide, and what they leave in the logs. */
module Pipeline {
  import opened Common
  import opened Decisions
  import opened Histories
  import opened PyObjects
  import BK = BucketKeys
  import BR = Breaker
  import CB = CircuitBreaker
  import RL = RateLimiter
  import T1 = ToolDetector
  import TA = ToolAllowlist
  import PR = Redactor
  import TB = TokenBucket

  /** The clock readings of one call, in the order in which they are taken. */
  datatype Clock = Clock(gate: real, scan: real, signal: real, limit: real, inspect: real) {
    predicate Ordered() {
      gate <= scan <= signal <= limit <= inspect
    }
  }

  // ------------------------------------------------------ merging the stages

  /** The outcome of merging the stages' decisions one after the other. */
  function Merged<S>(stages: seq<Decision<S>>): Decision<S> {
    Eval(LeftNested(stages))
  }

  lemma MergedStep<S>(stages: seq<Decision<S>>, next: Decision<S>)
    ensures Merged(stages + [next]) == Merge(Merged(stages), next)
  {
    hide Merge;
    assert (stages + [next])[..|stages|] == stages && (stages + [next])[|stages|] == next;
    var before, last := LeftNested(stages), Leaf(next);
    assert LeftNested(stages + [next]) == Node(before, last);
    assert Eval(Node(before, last)) == Merge(Eval(before), Eval(last)) && Eval(last) == next;
  }

  /** A call is allowed iff every stage that ran allows it, blocked iff some stage blocks it,
      and it reports every stage's triggers. */
  lemma AllowedIffAllAllow<S>(stages: seq<Decision<S>>)
    ensures Merged(stages).action == Allow <==> forall i :: 0 <= i < |stages| ==> stages[i].action == Allow
    ensures Merged(stages).action == Block <==> exists i :: 0 <= i < |stages| && stages[i].action == Block
    ensures multiset(Merged(stages).triggeredBy) == Triggers([Neutral()] + stages)
  {
    hide Eval, LeftNested, Triggers, Leaves;
    var w := MergeTakesMaximum(LeftNested(stages));
    var ds := [Neutral<S>()] + stages;
    assert Merged(stages).action == ds[w].action;
    assert forall i :: 0 <= i < |stages| ==> ds[i + 1] == stages[i];
    assert w > 0 ==> ds[w] == stages[w - 1];
    forall i | 0 <= i < |stages|
      ensures stages[i].action.Rank() <= Merged(stages).action.Rank()
    {
      assert ds[i + 1].action.Rank() <= ds[w].action.Rank();
    }
  }

  // ----------------------------------------------- the tool path as a function

  datatype ToolCall = ToolCall(tool: string, args: string, thread: Option<string>, tenant: Option<string>)

  datatype Settings = Settings(breaker: BR.Config, tool: T1.Config, allowlist: TA.Config, limiter: TB.Config)

  /** What a tool call finds: the breaker's state and the logs of detector and limiter. */
  datatype Before = Before(breaker: BR.State, scans: seq<T1.Scan>, calls: seq<RL.Call>)

  function GateDecision(s: Settings, b: Before, t: Clock): Decision<Dict> {
    if s.breaker.enabled then CB.Gate(s.breaker, BR.Cooled(s.breaker, b.breaker, t.gate), t.gate) else Neutral()
  }

  function GateFindings(s: Settings, b: Before, t: Clock): seq<Detection> {
    if s.breaker.enabled then CB.GateFindings(BR.Cooled(s.breaker, b.breaker, t.gate)) else []
  }

  function Report(s: Settings, b: Before, c: ToolCall, t: Clock): seq<Detection> {
    T1.Report(s.tool, b.scans, c.tool, c.args, s.allowlist.allowed, c.thread, t.scan)
  }

  function AllowlistDecision(s: Settings, b: Before, c: ToolCall, t: Clock): Decision<Dict> {
    if s.allowlist.enabled then TA.Verdict(s.allowlist, TA.Triggered(s.allowlist, c.tool, Report(s, b, c, t)))
    else Neutral()
  }

  function AllowlistFindings(s: Settings, b: Before, c: ToolCall, t: Clock): seq<Detection> {
    if s.allowlist.enabled then TA.Relevant(s.allowlist, Report(s, b, c, t)) else []
  }

  /** The call on the bucket of its key. */
  function Priced(s: Settings, c: ToolCall, t: Clock): RL.Call {
    Keyed(BK.KeyOf(BK.IdentityOf(s.limiter, c.tool, c.thread, c.tenant)),
          TB.Request(t.limit, RL.CostOf(s.limiter, |c.args|)))
  }

  /** The limiter would grant the call. */
  predicate Affordable(s: Settings, b: Before, c: ToolCall, t: Clock) {
    TB.Admits(s.limiter, On(b.calls, Priced(s, c, t).key), Priced(s, c, t).item)
  }

  function LimitDecision(s: Settings, b: Before, c: ToolCall, t: Clock): Decision<Dict> {
    if s.limiter.enabled then RL.Answer(s.limiter, On(b.calls, Priced(s, c, t).key), Priced(s, c, t).item)
    else Neutral()
  }

  function LimitFindings(s: Settings, b: Before, c: ToolCall, t: Clock): seq<Detection> {
    if s.limiter.enabled && !Affordable(s, b, c, t) then [Detection("rate_limit", "bucket_empty", Medium)] else []
  }

  predicate PassesGate(s: Settings, b: Before, t: Clock) {
    GateDecision(s, b, t).action != Block
  }

  predicate PassesAllowlist(s: Settings, b: Before, c: ToolCall, t: Clock) {
    PassesGate(s, b, t) && AllowlistDecision(s, b, c, t).action != Block
  }

  /** The decisions of the stages that run: none after one that blocks. */
  function Stages(s: Settings, b: Before, c: ToolCall, t: Clock): seq<Decision<Dict>> {
    if !PassesGate(s, b, t) then [GateDecision(s, b, t)]
    else if !PassesAllowlist(s, b, c, t) then [GateDecision(s, b, t), AllowlistDecision(s, b, c, t)]
    else [GateDecision(s, b, t), AllowlistDecision(s, b, c, t), LimitDecision(s, b, c, t)]
  }

  function StageFindings(s: Settings, b: Before, c: ToolCall, t: Clock): seq<Detection> {
    GateFindings(s, b, t)
    + (if PassesGate(s, b, t) then AllowlistFindings(s, b, c, t) else [])
    + (if PassesAllowlist(s, b, c, t) then LimitFindings(s, b, c, t) else [])
  }

  function ScansAfter(s: Settings, b: Before, c: ToolCall, t: Clock): seq<T1.Scan> {
    if PassesGate(s, b, t) && s.allowlist.enabled then T1.Logged(s.tool, b.scans, c.tool, c.thread, t.scan)
    else b.scans
  }

  /** What Tier 1 inspection reports of the call, after the stages. */
  function Tier1Findings(s: Settings, b: Before, c: ToolCall, t: Clock): seq<Detection> {
    T1.Report(s.tool, ScansAfter(s, b, c, t), c.tool, c.args, None, c.thread, t.inspect)
  }

  function CallsAfter(s: Settings, b: Before, c: ToolCall, t: Clock): seq<RL.Call> {
    if PassesAllowlist(s, b, c, t) && s.limiter.enabled then b.calls + [Priced(s, c, t)] else b.calls
  }

  /** The attack signals that a list of findings sends to the breaker. */
  function Signals(cfg: BR.Config, findings: seq<Detection>, at: real): seq<BR.Event> {
    if !cfg.enabled || !cfg.failClosed then []
    else seq(|findings|, k requires 0 <= k < |findings| => BR.Attack(at, findings[k].severity))
  }

  /** What the breaker hears of a tool call. */
  function BreakerEvents(s: Settings, b: Before, c: ToolCall, t: Clock): seq<BR.Event> {
    (if s.breaker.enabled then [BR.Request(t.gate)] else [])
    + (if PassesGate(s, b, t) then Signals(s.breaker, AllowlistFindings(s, b, c, t), t.signal) else [])
  }

  /** The answer, before the audit headers. */
  function Answer(s: Settings, b: Before, c: ToolCall, t: Clock): Decision<Dict> {
    Merged(Stages(s, b, c, t))
  }

  lemma StagesAllowOrBlock(s: Settings, b: Before, c: ToolCall, t: Clock)
    ensures GateDecision(s, b, t).action in {Allow, Block}
    ensures AllowlistDecision(s, b, c, t).action in {Allow, Block}
    ensures s.limiter.enabled ==> (LimitDecision(s, b, c, t).action == Allow <==> Affordable(s, b, c, t))
    ensures !s.limiter.enabled ==> LimitDecision(s, b, c, t).action == Allow
  {
    hide TB.Admits, T1.Report, TA.Triggered, BK.KeyOf, On, TB.RetryAfter, TB.TokensAt;
  }

  /** A tool call is allowed iff it passes gate and allow-list and the limiter, if enabled,
      can afford it. */
  lemma AllowedIff(s: Settings, b: Before, c: ToolCall, t: Clock)
    ensures Answer(s, b, c, t).action == Allow
       <==> PassesAllowlist(s, b, c, t) && (s.limiter.enabled ==> Affordable(s, b, c, t))
  {
    hide Merged, GateDecision, AllowlistDecision, LimitDecision, Affordable;
    StagesAllowOrBlock(s, b, c, t);
    var stages := Stages(s, b, c, t);
    AllowedIffAllAllow(stages);
    assert stages[0] == GateDecision(s, b, t);
    assert |stages| > 1 ==> stages[1] == AllowlistDecision(s, b, c, t);
    assert |stages| > 2 ==> stages[2] == LimitDecision(s, b, c, t);
  }

  /** Conservation of tokens: exactly an allowed call is debited, and only once; a call that
      gate or allow-list block does not even touch a bucket. */
  lemma DebitedIffAllowed(s: Settings, b: Before, c: ToolCall, t: Clock)
    requires s.limiter.enabled
    ensures RL.GrantedCalls(s.limiter, CallsAfter(s, b, c, t))
         == if Answer(s, b, c, t).action == Allow then RL.GrantedCalls(s.limiter, b.calls) + [Priced(s, c, t)]
            else RL.GrantedCalls(s.limiter, b.calls)
    ensures !PassesAllowlist(s, b, c, t) ==> CallsAfter(s, b, c, t) == b.calls
  {
    hide Answer, RL.GrantedCalls, Priced, PassesAllowlist, TB.Admits;
    AllowedIff(s, b, c, t);
    GrantedStep(s.limiter, b.calls, Priced(s, c, t));
  }

  lemma GrantedStep(cfg: TB.Config, log: seq<RL.Call>, call: RL.Call)
    ensures RL.GrantedCalls(cfg, log + [call])
         == if TB.Admits(cfg, On(log, call.key), call.item) then RL.GrantedCalls(cfg, log) + [call]
            else RL.GrantedCalls(cfg, log)
  {
    hide TB.Admits;
    assert (log + [call])[..|log|] == log;
  }

  lemma OneStage(a: Decision<Dict>)
    ensures Merged([a]).action == Block <==> a.action == Block
  {
    hide Merged;
    AllowedIffAllAllow([a]);
    assert [a][0] == a;
  }

  lemma TwoStages(a: Decision<Dict>, b: Decision<Dict>)
    ensures Merged([a, b]).action == Block <==> a.action == Block || b.action == Block
  {
    hide Merged;
    AllowedIffAllAllow([a, b]);
    assert [a, b][0] == a && [a, b][1] == b;
  }

  lemma SameScans(s: Settings, b: Before, b': Before, c: ToolCall, t: Clock)
    requires b.scans == b'.scans
    ensures AllowlistDecision(s, b, c, t) == AllowlistDecision(s, b', c, t)
    ensures AllowlistFindings(s, b, c, t) == AllowlistFindings(s, b', c, t)
  {
  }

  lemma StampedKeeps(cfg: AuditConfig, d: Decision<Dict>)
    ensures Stamped(cfg, d).triggeredBy == d.triggeredBy && Stamped(cfg, d).modifiedState == d.modifiedState
  {
  }

  lemma StampedSame(cfg: AuditConfig, d: Decision<Dict>)
    ensures Stamped(cfg, d).action == d.action
  {
  }

  lemma SignalsOfNone(cfg: BR.Config, at: real)
    ensures Signals(cfg, [], at) == []
  {
  }

  lemma SignalsStep(cfg: BR.Config, findings: seq<Detection>, i: nat, at: real)
    requires i < |findings|
    ensures Signals(cfg, findings[..i + 1], at)
         == if cfg.enabled && cfg.failClosed
            then Signals(cfg, findings[..i], at) + [BR.Attack(at, findings[i].severity)]
            else Signals(cfg, findings[..i], at)
  {
  }

  lemma CallsInOrder(s: Settings, b: Before, c: ToolCall, t: Clock)
    requires RL.InOrder(b.calls) && RL.Charged(b.calls)
    requires b.calls != [] ==> b.calls[|b.calls| - 1].item.time <= t.limit
    ensures RL.InOrder(CallsAfter(s, b, c, t)) && RL.Charged(CallsAfter(s, b, c, t))
  {
    hide PassesAllowlist;
    assert Priced(s, c, t).item.time == t.limit;
  }

  // ----------------------------------------------------------- the node path

  /** The goal guard is asked about a request that the gate let through and that has a thread. */
  predicate AsksGuard(s: Settings, b: Before, thread: Option<string>, t: Clock) {
    PassesGate(s, b, t) && thread.Some? && thread.value != ""
  }

  /** What the breaker hears of a node. */
  function NodeEvents(s: Settings, b: Before, thread: Option<string>, guardFindings: seq<Detection>, t: Clock)
    : seq<BR.Event>
  {
    (if s.breaker.enabled then [BR.Request(t.gate)] else [])
    + if AsksGuard(s, b, thread, t) then Signals(s.breaker, guardFindings, t.signal) else []
  }

  /** The findings of breaker and goal guard. */
  function GateAndGuardFindings(s: Settings, b: Before, thread: Option<string>, guardFindings: seq<Detection>, t: Clock)
    : seq<Detection>
  {
    GateFindings(s, b, t) + if AsksGuard(s, b, thread, t) then guardFindings else []
  }

  /** The findings of the redactor, if it is asked. */
  function RedactorFindings(cfg: PR.Config, first: seq<Decision<Dict>>, hits: set<string>): seq<Detection> {
    if Merged(first).action == Block || !cfg.enabled then [] else PR.Found(cfg, hits)
  }

  function GateAndGuard(s: Settings, b: Before, thread: Option<string>, guard: Decision<Dict>, t: Clock)
    : seq<Decision<Dict>>
  {
    if AsksGuard(s, b, thread, t) then [GateDecision(s, b, t), guard] else [GateDecision(s, b, t)]
  }

  /** The merged answer of a node's stages: the redactor's outcome comes last, if it is asked. */
  ghost predicate NodeAnswer(cfg: PR.Config, first: seq<Decision<Dict>>, g: Graph, state: Dict, twin: map<Dict, Dict>,
                             hits: set<string>, answer: Decision<Dict>)
    requires state in g
  {
    if Merged(first).action == Block then answer == Merged(first)
    else if !cfg.enabled then answer == Merged(first + [Neutral()])
    else
      && state in twin && PR.Notes(cfg, g, PR.Visits(g, state), hits)
      && answer == Merged(first + [PR.Outcome(cfg, hits, twin[state])])
  }

  lemma FirstHasNoState(s: Settings, b: Before, thread: Option<string>, guard: Decision<Dict>, t: Clock)
    requires guard.modifiedState.None?
    ensures Merged(GateAndGuard(s, b, thread, guard, t)).modifiedState.None?
  {
    hide Merged;
    var gate := GateDecision(s, b, t);
    assert gate.modifiedState.None?;
    MergedNone<Dict>();
    MergedStep([], gate);
    assert [] + [gate] == [gate] && [gate] + [guard] == [gate, guard];
    MergedStep([gate], guard);
  }

  lemma MergedNone<S>()
    ensures Merged<S>([]) == Neutral()
  {
  }

  lemma HitsNeedEntries(cfg: PR.Config, g: Graph, state: Dict, hits: set<string>)
    requires state in g && PR.Notes(cfg, g, PR.Visits(g, state), hits) && hits != {}
    ensures g[state] != map[]
  {
    hide PR.Visits;
    var hit :| hit in hits;
    assert PR.Noted(cfg, g, PR.Visits(g, state), hit);
    NothingToVisit(g, state);
  }

  lemma NothingToVisit(g: Graph, state: Dict)
    requires state in g
    ensures g[state] == map[] ==> PR.Visits(g, state) == multiset{}
  {
    if g[state] == map[] {
      assert PR.FieldSlots(g, state, g[state].Keys) == {};
    }
  }
}
