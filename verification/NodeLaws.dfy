/** What is forwarded after a node was decided (lens.py). */
module NodeLaws {
  import opened Common
  import opened Decisions
  import opened PyObjects
  import opened Pipeline
  import opened Lens
  import PR = Redactor
  import RedactorLaws
  import SsnGuard

  /** A decision that lets the node run carries the copy iff something was noted. */
  lemma CarriesIffNoted(s: Settings, cfg: PR.Config, b: Before, thread: Option<string>, guard: Decision<Dict>,
                        t: Clock, g: Graph, state: Dict, twin: map<Dict, Dict>, hits: set<string>,
                        answer: Decision<Dict>)
    requires state in g && cfg.enabled && guard.modifiedState.None? && answer.action != Block
    requires NodeAnswer(cfg, GateAndGuard(s, b, thread, guard, t), g, state, twin, hits, answer)
    ensures state in twin && PR.Notes(cfg, g, PR.Visits(g, state), hits)
    ensures answer.modifiedState == if hits == {} then None else Some(twin[state])
  {
    hide Merged, GateAndGuard, PR.Notes, PR.Visits, PR.Outcome;
    var first := GateAndGuard(s, b, thread, guard, t);
    var outcome := PR.Outcome(cfg, hits, twin[state]);
    FirstHasNoState(s, b, thread, guard, t);
    RedactorLaws.OutcomeNamesHits(cfg, hits, twin[state]);
    MergedStep(first, outcome);
    MergedState(Merged(first), outcome);
  }

  /** A stamp leaves every string as it was, except in the dictionary that it is written to. */
  lemma StampKeeps(content: Graph, at: map<Dict, Dict>, state: Dict, stamp: Option<map<string, Value>>, d: Dict,
                   key: string)
    requires Forwarded(content, at, state, stamp) && d in at && key in content[d] && content[d][key].Text?
    requires stamp.Some? && "__lens__" in content[state] ==> content[state]["__lens__"] != Ref(at[d])
    ensures key in at[d].entries && at[d].entries[key] == content[d][key]
  {
  }

  /** End to end: when the passes leave no social security number in any text, no scanned string
      of what a node is given to work on contains one, be it the copy or the caller's state, and
      however dictionaries are shared. Only a dictionary that decisions are stamped on may
      get others from the stamp. */
  lemma NodeSeesNoSsn(s: Settings, cfg: PR.Config, b: Before, thread: Option<string>, guard: Decision<Dict>, t: Clock,
                      g: Graph, state: Dict, twin: map<Dict, Dict>, hits: set<string>, copies: Graph,
                      answer: Decision<Dict>, stamp: Option<map<string, Value>>, d: Dict, key: string)
    requires SsnGuard.Clears(cfg.abc, cfg.patterns) && cfg.enabled
    requires guard.modifiedState.None? && answer.action != Block
    requires state in g && RedactorLaws.Scanned(g, state, PR.Slot(d, key))
    // what `Lens.DecideNode` ensures
    requires NodeAnswer(cfg, GateAndGuard(s, b, thread, guard, t), g, state, twin, hits, answer)
    requires answer.modifiedState.Some? ==>
      && state in twin && answer.modifiedState == Some(twin[state])
      && Followed(cfg, g, twin, PR.Visits(g, state), copies) && Forwarded(copies, twin, state, stamp)
    requires answer.modifiedState.None? ==> Forwarded(g, Identity(g), state, stamp)
    requires stamp.Some? && "__lens__" in g[state] ==> g[state]["__lens__"] != Ref(d)
    ensures answer.modifiedState.Some? ==> d in twin
    ensures var place := if answer.modifiedState.Some? then twin[d] else d;
      PR.HasText(Ref(place), key) && !SsnGuard.HasSsn(cfg.abc, place.entries[key].text)
  {
    hide GateAndGuard, NodeAnswer, RedactorLaws.Scanned, SsnGuard.Clears, PR.Visits, PR.Notes, PR.Rewritten,
         SsnGuard.HasSsn, Forwarded;
    CarriesIffNoted(s, cfg, b, thread, guard, t, g, state, twin, hits, answer);
    RedactorLaws.ScannedIsText(g, state, PR.Slot(d, key));
    if hits == {} {
      SsnGuard.UnnotedHasNoSsn(cfg, g, state, PR.Slot(d, key));
      StampKeeps(g, Identity(g), state, stamp, d, key);
    } else {
      RedactorLaws.ScannedIsCopied(g, state, twin, PR.Slot(d, key));
      SsnGuard.RewrittenHasNoSsn(cfg, g, state, twin, d, key);
      PR.RewrittenKinds(cfg, g, state, PR.Visits(g, state), twin);
      StampKeeps(copies, twin, state, stamp, d, key);
    }
  }
}
