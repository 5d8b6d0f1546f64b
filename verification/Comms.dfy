/** Graph-communication detector (detectors/comms.py): an online monitor of graph walks. */
module Comms {
  import opened Common
  import opened Histories
  import opened Topology

  datatype Config = Config(enabled: bool, rules: set<string>, growth: real)

  /** A node visited on a thread. */
  type Visit = Keyed<string>

  /** The edge rule fires at visit number `n`: the thread has been somewhere, and the step
      from there is not declared. */
  predicate Fires(edges: seq<Edge>, log: seq<Visit>, n: nat)
    requires n < |log|
  {
    var trace := On(log[..n], log[n].key);
    trace != [] && (trace[|trace| - 1], log[n].item) !in edges
  }

  /** The steps of a trace that are not declared, in order. */
  function BadSteps(edges: seq<Edge>, trace: seq<string>): seq<Edge> {
    if |trace| < 2 then []
    else
      var init, step := trace[..|trace| - 1], (trace[|trace| - 2], trace[|trace| - 1]);
      BadSteps(edges, init) + if step in edges then [] else [step]
  }

  /** The steps reported for a thread over a whole interleaved run, in order. */
  function Reported(edges: seq<Edge>, log: seq<Visit>, thread: string): seq<Edge> {
    if log == [] then []
    else
      var n := |log| - 1;
      var before := Reported(edges, log[..n], thread);
      if log[n].key == thread && Fires(edges, log, n)
      then before + [(On(log[..n], thread)[|On(log[..n], thread)| - 1], log[n].item)]
      else before
  }

  ghost predicate Walk(edges: seq<Edge>, trace: seq<string>) {
    forall k :: 0 < k < |trace| ==> (trace[k - 1], trace[k]) in edges
  }

  /** What is reported for a thread is exactly the undeclared steps of its own trace,
      whatever other threads do in between. */
  lemma {:induction false} ReportsBadSteps(edges: seq<Edge>, log: seq<Visit>, thread: string)
    ensures Reported(edges, log, thread) == BadSteps(edges, On(log, thread))
  {
    if log != [] {
      var n := |log| - 1;
      ReportsBadSteps(edges, log[..n], thread);
      if log[n].key == thread {
        var trace := On(log[..n], thread);
        assert (trace + [log[n].item])[..|trace|] == trace;
      }
    }
  }

  lemma {:induction false} BadStepsOfWalk(edges: seq<Edge>, trace: seq<string>)
    ensures BadSteps(edges, trace) == [] <==> Walk(edges, trace)
  {
    if |trace| >= 2 {
      BadStepsOfWalk(edges, trace[..|trace| - 1]);
      WalkStep(edges, trace);
    }
  }

  lemma WalkStep(edges: seq<Edge>, trace: seq<string>)
    requires |trace| >= 2
    ensures Walk(edges, trace)
       <==> Walk(edges, trace[..|trace| - 1]) && (trace[|trace| - 2], trace[|trace| - 1]) in edges
  {
    var init, last := trace[..|trace| - 1], |trace| - 1;
    if Walk(edges, trace) {
      assert (trace[last - 1], trace[last]) in edges;
    }
  }

  /** The monitor is silent on a thread iff the thread walks the declared graph. */
  lemma SilentIffWalk(edges: seq<Edge>, log: seq<Visit>, thread: string)
    ensures Reported(edges, log, thread) == [] <==> Walk(edges, On(log, thread))
  {
    ReportsBadSteps(edges, log, thread);
    BadStepsOfWalk(edges, On(log, thread));
  }

  /** Deduplicating the declared edges changes no verdict. */
  lemma DedupedEdgesSuffice(edges: seq<Edge>, log: seq<Visit>, n: nat)
    requires n < |log|
    ensures Fires(Deduped(edges), log, n) <==> Fires(edges, log, n)
  {
    var trace := On(log[..n], log[n].key);
    if trace != [] {
      DedupedSameElements(edges, (trace[|trace| - 1], log[n].item));
    }
  }

  // ---------------------------------------------------------------- the class

  predicate IsTarget(edges: seq<Edge>, node: string) {
    exists e :: e in edges && e.1 == node
  }

  /** One finding for every Send target that no declared edge leads to. */
  function StrayTargets(edges: seq<Edge>, targets: seq<string>): seq<Detection> {
    if targets == [] then []
    else
      StrayTargets(edges, targets[..|targets| - 1])
      + When(!IsTarget(edges, targets[|targets| - 1]), "comms", "send_to_undeclared_target", High)
  }

  predicate TooDeep(cfg: Config, limit: Option<int>, depth: Option<int>) {
    "recursion_exceeded" in cfg.rules && limit.Some? && depth.Some? && depth.value >= limit.value
  }

  predicate Grown(cfg: Config, initial: Option<int>, current: int) {
    && "oversized_state_growth" in cfg.rules && initial.Some? && initial.value > 0
    && current as real >= initial.value as real * cfg.growth
  }

  /** There are declared edges and a thread to follow. */
  predicate Watches(cfg: Config, edges: Option<seq<Edge>>, thread: Option<string>) {
    "undeclared_edge" in cfg.rules && edges.Some? && thread.Some? && thread.value != ""
  }

  /** What the detector is told of a visit. */
  datatype Scene = Scene(
    node: string,
    targets: seq<string>,
    edges: Option<seq<Edge>>,
    limit: Option<int>,
    depth: Option<int>,
    initialSize: Option<int>,
    currentSize: int,
    thread: Option<string>)

  /** The log after a visit. */
  function Logged(cfg: Config, log: seq<Visit>, v: Scene): seq<Visit> {
    log + if Watches(cfg, v.edges, v.thread) then [Keyed(v.thread.value, v.node)] else []
  }

  /** The findings on a visit, apart from the edge rule. */
  function SceneFindings(cfg: Config, v: Scene): seq<Detection> {
    When(TooDeep(cfg, v.limit, v.depth), "comms", "recursion_exceeded", Medium)
    + (if "send_to_undeclared_target" in cfg.rules && v.edges.Some? then StrayTargets(v.edges.value, v.targets)
       else [])
    + When(Grown(cfg, v.initialSize, v.currentSize), "comms", "oversized_state_growth", Medium)
  }

  /** The findings on a visit. */
  function Report(cfg: Config, log: seq<Visit>, v: Scene): seq<Detection> {
    When(Watches(cfg, v.edges, v.thread) && Fires(v.edges.value, Logged(cfg, log, v), |log|), "comms",
         "undeclared_edge", High)
    + SceneFindings(cfg, v)
  }

  predicate Stray(edges: seq<Edge>, node: string) {
    forall e :: e in edges ==> e.1 != node
  }

  lemma {:induction false} StraysAre(edges: seq<Edge>, targets: seq<string>, d: Detection)
    ensures d in StrayTargets(edges, targets) <==>
      d == Detection("comms", "send_to_undeclared_target", High) && exists t :: t in targets && Stray(edges, t)
  {
    if targets != [] {
      var init, last := targets[..|targets| - 1], targets[|targets| - 1];
      StraysAre(edges, init, d);
      assert IsTarget(edges, last) <==> !Stray(edges, last);
      hide Stray, IsTarget;
      assert targets == init + [last];
      assert (exists t :: t in targets && Stray(edges, t))
        <==> Stray(edges, last) || exists t :: t in init && Stray(edges, t) by {
        assert forall t :: t in targets <==> t in init || t == last;
      }
    }
  }

  /** Which rules are reported on a visit, whatever else the detector was shown before. */
  lemma RulesReported(cfg: Config, log: seq<Visit>, v: Scene, d: Detection)
    ensures d in Report(cfg, log, v) <==>
      && d.detector == "comms" && d.rule in cfg.rules
      && match d.rule
         case "undeclared_edge" =>
           && d.severity == High && v.edges.Some? && v.thread.Some? && v.thread.value != ""
           && var trace := On(log, v.thread.value);
              trace != [] && (trace[|trace| - 1], v.node) !in v.edges.value
         case "recursion_exceeded" =>
           d.severity == Medium && v.limit.Some? && v.depth.Some? && v.limit.value <= v.depth.value
         case "send_to_undeclared_target" =>
           && d.severity == High && v.edges.Some?
           && exists t :: t in v.targets && forall e :: e in v.edges.value ==> e.1 != t
         case "oversized_state_growth" =>
           && d.severity == Medium && v.initialSize.Some? && v.initialSize.value > 0
           && v.initialSize.value as real * cfg.growth <= v.currentSize as real
         case _ => false
  {
    hide StrayTargets, On;
    if v.edges.Some? {
      StraysAre(v.edges.value, v.targets, d);
    }
    if Watches(cfg, v.edges, v.thread) {
      assert Logged(cfg, log, v)[..|log|] == log;
    }
  }

  class CommsDetector {
    const cfg: Config
    var lastNode: map<string, string>
    /** Every visit that reached the edge rule. */
    ghost var log: seq<Visit>

    ghost predicate Valid()
      reads this
    {
      forall thread ::
        var trace := On(log, thread);
        if trace == [] then thread !in lastNode
        else thread in lastNode && lastNode[thread] == trace[|trace| - 1]
    }

    constructor (cfg: Config)
      ensures Valid() && this.cfg == cfg && log == []
    {
      this.cfg, lastNode, log := cfg, map[], [];
    }

    method Scan(v: Scene) returns (out: seq<Detection>)
      requires Valid()
      modifies this
      ensures Valid()
      ensures log == if cfg.enabled then Logged(cfg, old(log), v) else old(log)
      ensures out == if cfg.enabled then Report(cfg, old(log), v) else []
    {
      hide Fires, On, SceneFindings;
      out := [];
      if !cfg.enabled {
        return;
      }
      if Watches(cfg, v.edges, v.thread) {
        var fires := CheckEdge(v.node, v.edges.value, v.thread.value);
        if fires {
          out := out + [Detection("comms", "undeclared_edge", High)];
        }
      }
      var more := ScanScene(v);
      out := out + more;
    }

    method ScanScene(v: Scene) returns (out: seq<Detection>)
      ensures out == SceneFindings(cfg, v)
    {
      hide StrayTargets, Grown, TooDeep;
      out := [];
      if TooDeep(cfg, v.limit, v.depth) {
        out := out + [Detection("comms", "recursion_exceeded", Medium)];
      }
      if "send_to_undeclared_target" in cfg.rules && v.edges.Some? {
        var strays := CheckTargets(v.edges.value, v.targets);
        out := out + strays;
      }
      if Grown(cfg, v.initialSize, v.currentSize) {
        out := out + [Detection("comms", "oversized_state_growth", Medium)];
      }
    }

    method CheckEdge(node: string, edges: seq<Edge>, thread: string) returns (fires: bool)
      requires Valid()
      modifies this
      ensures Valid() && log == old(log) + [Keyed(thread, node)]
      ensures fires == Fires(edges, log, |log| - 1)
    {
      hide On;
      fires := thread in lastNode && (lastNode[thread], node) !in edges;
      ghost var e := Keyed(thread, node);
      forall other
        ensures On(log + [e], other) == if other == thread then On(log, thread) + [node] else On(log, other)
      {
        OnLast(log, e, other);
      }
      log := log + [e];
      assert log[..|log| - 1] == old(log);
      lastNode := lastNode[thread := node];
    }

    method CheckTargets(edges: seq<Edge>, targets: seq<string>) returns (out: seq<Detection>)
      ensures out == StrayTargets(edges, targets)
    {
      out := [];
      for i := 0 to |targets|
        invariant out == StrayTargets(edges, targets[..i])
      {
        var known := KnownTarget(edges, targets[i]);
        if !known {
          out := out + [Detection("comms", "send_to_undeclared_target", High)];
        }
        assert targets[..i + 1][..i] == targets[..i];
      }
      assert targets[..|targets|] == targets;
    }

    method KnownTarget(edges: seq<Edge>, node: string) returns (known: bool)
      ensures known == IsTarget(edges, node)
    {
      for i := 0 to |edges|
        invariant forall e :: e in edges[..i] ==> e.1 != node
      {
        if edges[i].1 == node {
          return true;
        }
      }
      assert edges[..|edges|] == edges;
      return false;
    }
  }
}
