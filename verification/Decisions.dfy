/** LensDecision and the in-place `merge` (interventions/decisions.py). */
module Decisions {
  import opened Common

  datatype Action = Allow | Redact | Throttle | Block {
    function Rank(): nat {
      match this
      case Allow => 0
      case Redact => 1
      case Throttle => 2
      case Block => 3
    }

    predicate IsTerminal() {
      Block?
    }
  }

  /** The value held by a decision object; `S` is the type of a state reference. */
  datatype Decision<S> = Decision(
    action: Action,
    reason: Option<string>,
    triggeredBy: seq<string>,
    modifiedState: Option<S>,
    headers: map<string, string>,
    statusCode: Option<int>,
    retryAfter: Option<real>)
  {
    /** What `merge` must take over whole from the winning operand. */
    function Core(): (Action, Option<string>, map<string, string>, Option<int>, Option<real>) {
      (action, reason, headers, statusCode, retryAfter)
    }
  }

  function Neutral<S>(): Decision<S> {
    Decision(Allow, None, [], None, map[], None, None)
  }

  /** The value of `a.merge(b)`: terminal operands first, then the higher rank, ties to the left. */
  function Merge<S>(a: Decision<S>, b: Decision<S>): Decision<S> {
    if a.action.IsTerminal() then
      a.(triggeredBy := a.triggeredBy + b.triggeredBy)
    else if b.action.IsTerminal() then
      b.(triggeredBy := a.triggeredBy + b.triggeredBy,
         modifiedState := if b.modifiedState.None? then a.modifiedState else b.modifiedState)
    else
      var (winner, loser) := if a.action.Rank() >= b.action.Rank() then (a, b) else (b, a);
      winner.(triggeredBy := winner.triggeredBy + loser.triggeredBy,
              modifiedState := if winner.modifiedState.None? then loser.modifiedState else winner.modifiedState)
  }

  // ------------------------------------------------- merging many decisions

  /** Any way to put brackets around a sequence of merges. */
  datatype Bracketing<S> = Leaf(decision: Decision<S>) | Node(left: Bracketing<S>, right: Bracketing<S>)

  function Eval<S>(t: Bracketing<S>): Decision<S> {
    match t
    case Leaf(d) => d
    case Node(l, r) => Merge(Eval(l), Eval(r))
  }

  function Leaves<S>(t: Bracketing<S>): seq<Decision<S>> {
    match t
    case Leaf(d) => [d]
    case Node(l, r) => Leaves(l) + Leaves(r)
  }

  /** The bracketing of the pipeline: start neutral, merge one decision after the other. */
  function LeftNested<S>(ds: seq<Decision<S>>): (t: Bracketing<S>)
    ensures Leaves(t) == [Neutral()] + ds
  {
    if ds == [] then Leaf(Neutral())
    else
      assert ds == ds[..|ds| - 1] + [ds[|ds| - 1]];
      Node(LeftNested(ds[..|ds| - 1]), Leaf(ds[|ds| - 1]))
  }

  /** Position `w` holds the highest rank, and no earlier position does. */
  predicate LeftmostMaximal<S>(ds: seq<Decision<S>>, w: nat) {
    && w < |ds|
    && (forall k :: 0 <= k < |ds| ==> ds[k].action.Rank() <= ds[w].action.Rank())
    && (forall k :: 0 <= k < w ==> ds[k].action.Rank() < ds[w].action.Rank())
  }

  function Triggers<S>(ds: seq<Decision<S>>): multiset<string> {
    if ds == [] then multiset{}
    else Triggers(ds[..|ds| - 1]) + multiset(ds[|ds| - 1].triggeredBy)
  }

  ghost predicate AtMostOneState<S>(ds: seq<Decision<S>>) {
    forall i, j :: 0 <= i < j < |ds| ==> ds[i].modifiedState.None? || ds[j].modifiedState.None?
  }

  predicate HasTerminal<S>(ds: seq<Decision<S>>) {
    exists i :: 0 <= i < |ds| && ds[i].action.IsTerminal()
  }

  /** The first state that no terminal decision comes before; one that carries the state
      itself keeps it. */
  function KeptState<S>(ds: seq<Decision<S>>): Option<S> {
    if ds == [] then None
    else if ds[0].modifiedState.Some? then ds[0].modifiedState
    else if ds[0].action.IsTerminal() then None
    else KeptState(ds[1..])
  }

  lemma TriggersStep<S>(ds: seq<Decision<S>>, d: Decision<S>)
    ensures Triggers(ds + [d]) == Triggers(ds) + multiset(d.triggeredBy)
  {
    assert (ds + [d])[..|ds|] == ds;
  }

  lemma {:induction false} TriggersAppend<S>(a: seq<Decision<S>>, b: seq<Decision<S>>)
    ensures Triggers(a + b) == Triggers(a) + Triggers(b)
  {
    if b == [] {
      assert a + b == a;
    } else {
      hide Triggers;
      var init, d := b[..|b| - 1], b[|b| - 1];
      assert b == init + [d] && a + b == (a + init) + [d];
      TriggersAppend(a, init);
      TriggersStep(a + init, d);
      TriggersStep(init, d);
    }
  }

  lemma {:induction false} KeptAppend<S>(a: seq<Decision<S>>, b: seq<Decision<S>>)
    ensures KeptState(a + b)
         == if KeptState(a).Some? then KeptState(a) else if HasTerminal(a) then None else KeptState(b)
  {
    if a == [] {
      assert a + b == b;
    } else {
      KeptAppend(a[1..], b);
      assert (a + b)[1..] == a[1..] + b;
      assert HasTerminal(a) <==> a[0].action.IsTerminal() || HasTerminal(a[1..]) by {
        if i :| 0 <= i < |a| && a[i].action.IsTerminal() {
          assert i > 0 ==> a[1..][i - 1] == a[i];
        }
      }
    }
  }

  lemma {:induction false} KeptComesFrom<S>(ds: seq<Decision<S>>) returns (i: nat)
    requires KeptState(ds).Some?
    ensures i < |ds| && ds[i].modifiedState.Some?
  {
    if ds[0].modifiedState.Some? {
      i := 0;
    } else {
      i := KeptComesFrom(ds[1..]);
      i := i + 1;
    }
  }

  lemma MaximalAppend<S>(a: seq<Decision<S>>, i: nat, b: seq<Decision<S>>, j: nat) returns (w: nat)
    requires LeftmostMaximal(a, i) && LeftmostMaximal(b, j)
    ensures LeftmostMaximal(a + b, w)
    ensures (a + b)[w] == if a[i].action.Rank() >= b[j].action.Rank() then a[i] else b[j]
  {
    w := if a[i].action.Rank() >= b[j].action.Rank() then i else |a| + j;
    assert forall k :: 0 <= k < |a + b| ==> (a + b)[k] == if k < |a| then a[k] else b[k - |a|];
  }

  /** However a sequence of decisions is bracketed, the action, reason, headers, status and
      delay are those of its leftmost maximal decision and no trigger is lost or invented. */
  lemma {:induction false} MergeTakesMaximum<S>(t: Bracketing<S>) returns (w: nat)
    ensures LeftmostMaximal(Leaves(t), w) && Eval(t).Core() == Leaves(t)[w].Core()
    ensures multiset(Eval(t).triggeredBy) == Triggers(Leaves(t))
  {
    hide Merge, Triggers;
    match t
    case Leaf(d) =>
      w := 0;
      TriggersOfOne(d);
    case Node(l, r) =>
      var i := MergeTakesMaximum(l);
      var j := MergeTakesMaximum(r);
      TriggersAppend(Leaves(l), Leaves(r));
      MergeTriggers(Eval(l), Eval(r));
      w := MaximalAppend(Leaves(l), i, Leaves(r), j);
  }

  lemma TriggersOfOne<S>(d: Decision<S>)
    ensures Triggers([d]) == multiset(d.triggeredBy)
  {
    assert [d][..0] == [];
  }

  lemma MergeTriggers<S>(a: Decision<S>, b: Decision<S>)
    ensures multiset(Merge(a, b).triggeredBy) == multiset(a.triggeredBy) + multiset(b.triggeredBy)
    ensures Merge(a, b).Core() == if a.action.Rank() >= b.action.Rank() then a.Core() else b.Core()
  {
  }

  predicate Holds<S>(ds: seq<Decision<S>>, action: Action) {
    exists i :: 0 <= i < |ds| && ds[i].action == action
  }

  /** The strictest action wins: block before throttle before redact before allow. */
  lemma StrictestWins<S>(t: Bracketing<S>)
    ensures var ds, action := Leaves(t), Eval(t).action;
      && (action == Block <==> Holds(ds, Block))
      && (action == Throttle <==> Holds(ds, Throttle) && !Holds(ds, Block))
      && (action == Redact <==> Holds(ds, Redact) && !Holds(ds, Throttle) && !Holds(ds, Block))
      && (action == Allow <==> forall i :: 0 <= i < |ds| ==> ds[i].action == Allow)
  {
    hide Eval, Leaves;
    var w := MergeTakesMaximum(t);
    var ds := Leaves(t);
    assert Eval(t).action == ds[w].action;
    assert forall i :: 0 <= i < |ds| ==> ds[i].action.Rank() <= ds[w].action.Rank();
  }

  lemma TerminalIsMaximal<S>(ds: seq<Decision<S>>, w: nat)
    requires LeftmostMaximal(ds, w)
    ensures HasTerminal(ds) <==> ds[w].action.IsTerminal()
  {
  }

  lemma OneState<S>(a: seq<Decision<S>>, b: seq<Decision<S>>)
    requires AtMostOneState(a + b)
    ensures AtMostOneState(a) && AtMostOneState(b)
    ensures KeptState(a).None? || KeptState(b).None?
  {
    hide KeptState;
    assert forall k :: 0 <= k < |a + b| ==> (a + b)[k] == if k < |a| then a[k] else b[k - |a|];
    assert forall i, j :: 0 <= i < |a| && 0 <= j < |b| ==> a[i].modifiedState.None? || b[j].modifiedState.None? by {
      forall i, j | 0 <= i < |a| && 0 <= j < |b|
        ensures a[i].modifiedState.None? || b[j].modifiedState.None?
      {
        assert (a + b)[i] == a[i] && (a + b)[|a| + j] == b[j];
      }
    }
    if KeptState(a).Some? && KeptState(b).Some? {
      var x := KeptComesFrom(a);
      var y := KeptComesFrom(b);
    }
    forall i, j | 0 <= i < j < |b|
      ensures b[i].modifiedState.None? || b[j].modifiedState.None?
    {
      assert (a + b)[|a| + i] == b[i] && (a + b)[|a| + j] == b[j];
    }
  }

  lemma MergeState<S>(a: Decision<S>, b: Decision<S>)
    requires a.modifiedState.None? || b.modifiedState.None?
    ensures Merge(a, b).modifiedState
         == if a.modifiedState.Some? then a.modifiedState
            else if a.action.IsTerminal() then None else b.modifiedState
  {
  }

  /** With at most one state among the operands, the merged state does not depend on the
      bracketing either: it is kept unless a terminal decision comes before it. */
  lemma {:induction false} MergeKeepsState<S>(t: Bracketing<S>)
    requires AtMostOneState(Leaves(t))
    ensures Eval(t).modifiedState == KeptState(Leaves(t))
  {
    hide AtMostOneState, Merge, HasTerminal;
    if t.Node? {
      var a, b := Leaves(t.left), Leaves(t.right);
      OneState(a, b);
      MergeKeepsState(t.left);
      MergeKeepsState(t.right);
      KeptAppend(a, b);
      var i := MergeTakesMaximum(t.left);
      TerminalIsMaximal(a, i);
      MergeState(Eval(t.left), Eval(t.right));
    }
  }

  /** Two bracketings of the same decisions agree on everything but the order of triggers. */
  lemma BracketingIrrelevant<S>(s: Bracketing<S>, t: Bracketing<S>)
    requires Leaves(s) == Leaves(t)
    ensures Eval(s).Core() == Eval(t).Core()
    ensures multiset(Eval(s).triggeredBy) == multiset(Eval(t).triggeredBy)
    ensures AtMostOneState(Leaves(s)) ==> Eval(s).modifiedState == Eval(t).modifiedState
  {
    var i := MergeTakesMaximum(s);
    var j := MergeTakesMaximum(t);
    assert i == j;
    if AtMostOneState(Leaves(s)) {
      MergeKeepsState(s);
      MergeKeepsState(t);
    }
  }

  /** With two states among the operands the brackets decide which one survives. */
  lemma TwoStatesDependOnBrackets<S>(x: S, y: S)
    requires x != y
    ensures
      var a := Neutral<S>().(modifiedState := Some(x));
      var b := Neutral<S>().(action := Redact);
      var c := Neutral<S>().(action := Redact, modifiedState := Some(y));
      Merge(Merge(a, b), c).modifiedState != Merge(a, Merge(b, c)).modifiedState
  {
  }

  /** `x` and `y` are different states, `none` is no state. */
  predicate Conflict<S(==)>(x: Option<S>, y: Option<S>, none: Option<S>) {
    x.Some? && y.Some? && x != y && none.None?
  }

  /** Exactly when three merges depend on the brackets: the operand that wins carries no state,
      the other two carry different ones, and which of them meets the winner first is up to
      the brackets. */
  lemma AssociativeIff<S>(a: Decision<S>, b: Decision<S>, c: Decision<S>)
    ensures
      var (ra, rb, rc) := (a.action.Rank(), b.action.Rank(), c.action.Rank());
      Merge(Merge(a, b), c).modifiedState == Merge(a, Merge(b, c)).modifiedState <==>
        && !(Conflict(b.modifiedState, c.modifiedState, a.modifiedState) && rb < rc <= ra < 3)
        && !(Conflict(a.modifiedState, c.modifiedState, b.modifiedState) && ra < rb < 3 && rc <= rb)
        && !(Conflict(a.modifiedState, b.modifiedState, c.modifiedState) && rb <= ra < rc)
  {
    hide Merge;
    MergedState(a, b);
    MergedState(b, c);
    MergedState(Merge(a, b), c);
    MergedState(a, Merge(b, c));
  }

  /** The winner keeps its state or takes the other one's, unless a terminal decision came first. */
  lemma MergedState<S>(a: Decision<S>, b: Decision<S>)
    ensures Merge(a, b).action == if a.action.Rank() >= b.action.Rank() then a.action else b.action
    ensures Merge(a, b).modifiedState
         == if a.action.Rank() >= b.action.Rank()
            then if a.modifiedState.Some? || a.action.IsTerminal() then a.modifiedState else b.modifiedState
            else if b.modifiedState.Some? then b.modifiedState else a.modifiedState
  {
  }

  // ---------------------------------------------------------- audit headers

  /** Header names; `joinSorted` renders a set of triggers, sorted and comma-separated. */
  datatype AuditConfig = AuditConfig(
    enabled: bool,
    triggeredHeader: string,
    reasonHeader: string,
    actionHeader: string,
    joinSorted: set<string> -> string)

  function ActionName(a: Action): string {
    match a
    case Allow => "allow"
    case Redact => "redact"
    case Throttle => "throttle"
    case Block => "block"
  }

  function SetDefault(headers: map<string, string>, key: string, value: string): map<string, string> {
    if key in headers then headers else headers[key := value]
  }

  /** Python's `int`: truncation toward zero. */
  function Truncate(x: real): int {
    if x >= 0.0 then x.Floor else -((-x).Floor)
  }

  function Numeral(n: nat): string {
    if n < 10 then ["0123456789"[n]] else Numeral(n / 10) + ["0123456789"[n % 10]]
  }

  function IntText(n: int): string {
    if n < 0 then "-" + Numeral(-n) else Numeral(n)
  }

  function Stamped<S>(cfg: AuditConfig, d: Decision<S>): Decision<S> {
    if !cfg.enabled || (d.triggeredBy == [] && d.action == Allow) then d
    else
      var h1 := SetDefault(d.headers, cfg.triggeredHeader, "true");
      var h2 := SetDefault(h1, cfg.actionHeader, ActionName(d.action));
      var names := set x | x in d.triggeredBy;
      var h3 := if names == {} then h2 else SetDefault(h2, cfg.reasonHeader, cfg.joinSorted(names));
      var h4 := if d.retryAfter.None? then h3
                else SetDefault(h3, "Retry-After", IntText(Truncate(d.retryAfter.value)));
      d.(headers := h4)
  }

  /** The value of a header after stamping a decision that is not neutral: what was set stays, and
      a name that stands for several things holds the first. */
  lemma HeadersAre<S>(cfg: AuditConfig, d: Decision<S>, key: string)
    requires cfg.enabled && (d.triggeredBy != [] || d.action != Allow)
    ensures var h := Stamped(cfg, d).headers;
      if key in d.headers then key in h && h[key] == d.headers[key]
      else if key == cfg.triggeredHeader then key in h && h[key] == "true"
      else if key == cfg.actionHeader then
        && key in h && (h[key] == "block" <==> d.action == Block) && (h[key] == "throttle" <==> d.action == Throttle)
        && (h[key] == "redact" <==> d.action == Redact) && (h[key] == "allow" <==> d.action == Allow)
      else if key == cfg.reasonHeader && d.triggeredBy != [] then
        key in h && exists names :: h[key] == cfg.joinSorted(names) && forall x :: x in names <==> x in d.triggeredBy
      else if key == "Retry-After" && d.retryAfter.Some? then
        key in h && h[key] == IntText(Truncate(d.retryAfter.value))
      else key !in h
  {
    hide IntText, Truncate;
    var names := set x | x in d.triggeredBy;
    assert forall x :: x in names <==> x in d.triggeredBy;
    assert d.triggeredBy != [] ==> d.triggeredBy[0] in names;
  }

  /** A decimal numeral, read. */
  function Read(t: string): int {
    if t == "" then 0 else 10 * Read(t[..|t| - 1]) + (t[|t| - 1] as int - '0' as int)
  }

  lemma {:induction false} NumeralReads(n: nat)
    ensures Read(Numeral(n)) == n && forall c :: c in Numeral(n) ==> '0' <= c <= '9'
  {
    var digits := "0123456789";
    assert forall k :: 0 <= k < 10 ==> digits[k] as int - '0' as int == k;
    var last := [digits[n % 10]];
    if n < 10 {
      assert last[..0] == "" && Numeral(n) == last;
    } else {
      NumeralReads(n / 10);
      assert Numeral(n) == Numeral(n / 10) + last;
      assert (Numeral(n / 10) + last)[..|Numeral(n / 10)|] == Numeral(n / 10);
    }
  }

  /** A delay is told in whole seconds, and by less than a second too short. */
  lemma DelayRounded(x: real)
    requires x >= 0.0
    ensures var text := IntText(Truncate(x));
      && (forall c :: c in text ==> '0' <= c <= '9')
      && Read(text) as real <= x < Read(text) as real + 1.0
  {
    NumeralReads(x.Floor);
  }

  /** Stamping is idempotent. */
  lemma StampTwice<S>(cfg: AuditConfig, d: Decision<S>)
    ensures Stamped(cfg, Stamped(cfg, d)) == Stamped(cfg, d)
  {
  }

  lemma SameNames(a: seq<string>, b: seq<string>)
    requires multiset(a) == multiset(b)
    ensures (set x | x in a) == (set x | x in b) && |a| == |b|
  {
    assert forall x :: x in a <==> x in multiset(a);
    assert forall x :: x in b <==> x in multiset(b);
    assert |multiset(a)| == |a| && |multiset(b)| == |b|;
  }

  lemma SameHeaders<S>(cfg: AuditConfig, d: Decision<S>, e: Decision<S>)
    requires d.Core() == e.Core() && |d.triggeredBy| == |e.triggeredBy|
    requires (set x | x in d.triggeredBy) == (set x | x in e.triggeredBy)
    ensures Stamped(cfg, d).headers == Stamped(cfg, e).headers
  {
    hide SetDefault, IntText, Truncate, ActionName;
  }

  /** The headers a client sees do not depend on how the decisions were bracketed. */
  lemma HeadersIgnoreBracketing<S>(cfg: AuditConfig, s: Bracketing<S>, t: Bracketing<S>)
    requires Leaves(s) == Leaves(t)
    ensures Stamped(cfg, Eval(s)).headers == Stamped(cfg, Eval(t)).headers
  {
    hide Stamped, Eval, Leaves;
    BracketingIrrelevant(s, t);
    SameNames(Eval(s).triggeredBy, Eval(t).triggeredBy);
    SameHeaders(cfg, Eval(s), Eval(t));
  }

  /** The decision object of the original; every intervention returns a fresh one. */
  class LensDecision<S(==)> {
    var action: Action
    var reason: Option<string>
    var triggeredBy: seq<string>
    var modifiedState: Option<S>
    var headers: map<string, string>
    var statusCode: Option<int>
    var retryAfter: Option<real>

    constructor (d: Decision<S>)
      ensures View() == d
    {
      action, reason, triggeredBy, modifiedState := d.action, d.reason, d.triggeredBy, d.modifiedState;
      headers, statusCode, retryAfter := d.headers, d.statusCode, d.retryAfter;
    }

    function View(): Decision<S>
      reads this
    {
      Decision(action, reason, triggeredBy, modifiedState, headers, statusCode, retryAfter)
    }

    /** Returns one of the two operands, updated in place; the other keeps its value.
        The operands may be the same object. */
    method MergeWith(other: LensDecision<S>) returns (winner: LensDecision<S>)
      modifies this, other
      ensures winner == this || winner == other
      ensures winner.View() == Merge(old(View()), old(other.View()))
      ensures winner != this ==> View() == old(View())
      ensures winner != other ==> other.View() == old(other.View())
    {
      if action.IsTerminal() {
        triggeredBy := triggeredBy + other.triggeredBy;
        return this;
      }
      if other.action.IsTerminal() {
        other.triggeredBy := triggeredBy + other.triggeredBy;
        if other.modifiedState.None? && modifiedState.Some? {
          other.modifiedState := modifiedState;
        }
        return other;
      }
      winner := if action.Rank() >= other.action.Rank() then this else other;
      var loser := if winner == this then other else this;
      winner.triggeredBy := winner.triggeredBy + loser.triggeredBy;
      if winner.modifiedState.None? && loser.modifiedState.Some? {
        winner.modifiedState := loser.modifiedState;
      }
    }

    /** Stamps the headers in place, keeping any that are already set. */
    method WithAuditHeaders(cfg: AuditConfig)
      modifies this`headers
      ensures View() == Stamped(cfg, old(View()))
    {
      if !cfg.enabled {
        return;
      }
      if triggeredBy == [] && action == Allow {
        return;
      }
      headers := SetDefault(headers, cfg.triggeredHeader, "true");
      headers := SetDefault(headers, cfg.actionHeader, ActionName(action));
      var names := set x | x in triggeredBy;
      assert names == {} <==> triggeredBy == [] by {
        if triggeredBy != [] {
          assert triggeredBy[0] in names;
        }
      }
      if triggeredBy != [] {
        headers := SetDefault(headers, cfg.reasonHeader, cfg.joinSorted(names));
      }
      if retryAfter.Some? {
        headers := SetDefault(headers, "Retry-After", IntText(Truncate(retryAfter.value)));
      }
    }
  }
}
