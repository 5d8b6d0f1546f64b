/** Tool allow-list (interventions/tool_allowlist.py): turns the detector's findings into a decision. */
module ToolAllowlist {
  import opened Common
  import opened Decisions
  import opened Histories
  import opened SlidingWindow
  import T1 = ToolDetector

  datatype Mode = BlockMode | LogMode

  datatype Config = Config(enabled: bool, mode: Mode, allowed: Option<seq<string>>, blockOn: set<string>)

  /** The findings whose rule is listed. */
  function Relevant(cfg: Config, findings: seq<Detection>): seq<Detection> {
    if findings == [] then []
    else
      Relevant(cfg, findings[..|findings| - 1])
      + if findings[|findings| - 1].rule in cfg.blockOn then [findings[|findings| - 1]] else []
  }

  function Labels(findings: seq<Detection>): seq<string> {
    if findings == [] then []
    else Labels(findings[..|findings| - 1]) + ["tool_allowlist." + findings[|findings| - 1].rule]
  }

  /** Everything that speaks against the call. */
  function Triggered(cfg: Config, tool: string, findings: seq<Detection>): seq<string> {
    (if cfg.allowed.Some? && tool !in cfg.allowed.value then ["tool_allowlist.out_of_allowlist"] else [])
    + Labels(Relevant(cfg, findings))
  }

  function Verdict<S>(cfg: Config, triggered: seq<string>): Decision<S> {
    if triggered == [] then Neutral()
    else match cfg.mode
      case LogMode => Neutral<S>().(triggeredBy := triggered)
      case BlockMode => Decision(Block, Some("tool_blocked"), triggered, None, map[], Some(403), None)
  }

  /** A finding whose rule is listed, or a tool that is not. */
  predicate SpeaksAgainst(cfg: Config, tool: string, findings: seq<Detection>) {
    || (cfg.allowed.Some? && tool !in cfg.allowed.value)
    || exists k :: 0 <= k < |findings| && findings[k].rule in cfg.blockOn
  }

  /** In block mode a call is blocked, with 403, iff something speaks against it; in log mode it is
      only noted. The triggers are the same in both modes. */
  lemma VerdictIff<S>(cfg: Config, tool: string, findings: seq<Detection>)
    ensures var d := Verdict<S>(cfg, Triggered(cfg, tool, findings));
      && (d.action == Block <==> cfg.mode == BlockMode && SpeaksAgainst(cfg, tool, findings))
      && d.action in {Allow, Block} && d.statusCode == (if d.action == Block then Some(403) else None)
      && d.reason == (if d.action == Block then Some("tool_blocked") else None)
      && (d == Neutral() <==> !SpeaksAgainst(cfg, tool, findings))
      && d.triggeredBy == Triggered(cfg, tool, findings)
  {
    hide Triggered, SpeaksAgainst;
    TriggeredIff(cfg, tool, findings);
  }

  lemma TriggeredIff(cfg: Config, tool: string, findings: seq<Detection>)
    ensures Triggered(cfg, tool, findings) != [] <==> SpeaksAgainst(cfg, tool, findings)
    ensures forall mode :: Triggered(cfg.(mode := mode), tool, findings) == Triggered(cfg, tool, findings)
  {
    hide Relevant, Labels;
    AnyRelevant(cfg, findings);
    NoLabels(Relevant(cfg, findings));
    forall mode
      ensures Triggered(cfg.(mode := mode), tool, findings) == Triggered(cfg, tool, findings)
    {
      SameRelevant(cfg, mode, findings);
    }
  }

  lemma {:induction false} SameRelevant(cfg: Config, mode: Mode, findings: seq<Detection>)
    ensures Relevant(cfg.(mode := mode), findings) == Relevant(cfg, findings)
  {
    if findings != [] {
      SameRelevant(cfg, mode, findings[..|findings| - 1]);
    }
  }

  lemma RelevantStep(cfg: Config, findings: seq<Detection>, d: Detection)
    ensures Relevant(cfg, findings + [d]) == Relevant(cfg, findings) + if d.rule in cfg.blockOn then [d] else []
  {
    assert (findings + [d])[..|findings|] == findings;
  }

  lemma {:induction false} AnyRelevant(cfg: Config, findings: seq<Detection>)
    ensures Relevant(cfg, findings) != [] <==> exists k :: 0 <= k < |findings| && findings[k].rule in cfg.blockOn
  {
    if findings != [] {
      var init, last := findings[..|findings| - 1], findings[|findings| - 1];
      assert findings == init + [last];
      AnyRelevant(cfg, init);
      RelevantStep(cfg, init, last);
      hide Relevant;
      assert forall k :: 0 <= k < |init| ==> init[k] == findings[k];
      if last.rule in cfg.blockOn {
        assert findings[|init|].rule in cfg.blockOn;
      }
    }
  }

  /** The findings picked are those with a listed rule, as often as they are reported. */
  lemma {:induction false} RelevantCount(cfg: Config, findings: seq<Detection>, d: Detection)
    ensures multiset(Relevant(cfg, findings))[d] == if d.rule in cfg.blockOn then multiset(findings)[d] else 0
  {
    if findings != [] {
      var init, last := findings[..|findings| - 1], findings[|findings| - 1];
      assert findings == init + [last];
      RelevantCount(cfg, init, d);
      RelevantStep(cfg, init, last);
      hide Relevant;
    }
  }

  lemma {:induction false} LabelsAre(findings: seq<Detection>)
    ensures |Labels(findings)| == |findings|
    ensures forall k :: 0 <= k < |findings| ==> Labels(findings)[k] == "tool_allowlist." + findings[k].rule
  {
    if findings != [] {
      LabelsAre(findings[..|findings| - 1]);
    }
  }

  class ToolAllowlist<S(==)> {
    const cfg: Config
    const t1: T1.ToolDetector

    constructor (cfg: Config, t1: T1.ToolDetector)
      ensures this.cfg == cfg && this.t1 == t1
    {
      this.cfg, this.t1 := cfg, t1;
    }

    method Evaluate(tool: string, args: string, thread: Option<string>, now: real)
      returns (d: LensDecision<S>, detections: seq<Detection>)
      requires t1.Valid() && t1.NotBefore(now)
      modifies t1
      ensures t1.Valid() && fresh(d)
      ensures !cfg.enabled ==> d.View() == Neutral() && detections == [] && t1.log == old(t1.log)
      ensures cfg.enabled ==>
        var findings := T1.Report(t1.cfg, old(t1.log), tool, args, cfg.allowed, thread, now);
        && t1.log == T1.Logged(t1.cfg, old(t1.log), tool, thread, now)
        && d.View() == Verdict(cfg, Triggered(cfg, tool, findings))
        && detections == Relevant(cfg, findings)
    {
      hide T1.Report, T1.Logged, T1.ToolDetector.Valid, Relevant, Labels;
      detections := [];
      if !cfg.enabled {
        d := new LensDecision(Neutral());
        return;
      }
      var triggered: seq<string> := [];
      if cfg.allowed.Some? && tool !in cfg.allowed.value {
        triggered := triggered + ["tool_allowlist.out_of_allowlist"];
      }
      var findings := t1.Scan(tool, args, cfg.allowed, thread, now);
      var labels;
      detections, labels := Sift(findings);
      triggered := triggered + labels;
      if triggered == [] {
        NoLabels(detections);
        d := new LensDecision(Neutral());
        return d, [];
      }
      if cfg.mode == LogMode {
        d := new LensDecision(Neutral<S>().(triggeredBy := triggered));
        return;
      }
      d := new LensDecision(Decision(Block, Some("tool_blocked"), triggered, None, map[], Some(403), None));
    }

    /** Picks the findings whose rule is listed, and labels them. */
    method Sift(findings: seq<Detection>) returns (detections: seq<Detection>, labels: seq<string>)
      ensures detections == Relevant(cfg, findings) && labels == Labels(detections)
    {
      detections, labels := [], [];
      for i := 0 to |findings|
        invariant detections == Relevant(cfg, findings[..i]) && labels == Labels(detections)
      {
        assert findings[..i + 1][..i] == findings[..i];
        if findings[i].rule in cfg.blockOn {
          labels := labels + ["tool_allowlist." + findings[i].rule];
          assert (detections + [findings[i]])[..|detections|] == detections;
          detections := detections + [findings[i]];
        }
      }
      assert findings[..|findings|] == findings;
    }
  }

  lemma NoLabels(findings: seq<Detection>)
    ensures Labels(findings) == [] <==> findings == []
  {
  }
}
