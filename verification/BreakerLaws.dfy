/** What the breaker's log says about its state, in terms of the events alone: when it was
    opened, for how long, and by how many of them. */
module BreakerLaws {
  import opened Common
  import opened Decisions
  import opened SlidingWindow
  import opened Breaker
  import CB = CircuitBreaker

  // ------------------------------------------------------- when it was opened

  /** An open breaker was opened by the last event, at its time, or was open before, since the
      same time; and that time changes only at an alarm. */
  lemma OpenedAtEvent(cfg: Config, log: seq<Event>, e: Event)
    requires After(cfg, log + [e]).phase == Open
    ensures After(cfg, log).phase != Open ==> After(cfg, log + [e]).openedAt == e.at && !e.Request?
    ensures After(cfg, log).phase == Open && After(cfg, log + [e]).openedAt != After(cfg, log).openedAt ==>
      e.Attack? && After(cfg, log + [e]).openedAt == e.at && AlarmsAt(cfg, log, [e], 0)
  {
    hide After, Alarms, Trips, Since, Responses, Signals;
    AfterStep(cfg, log, e);
    assert [e][..1] == [e];
  }

  /** Event number `k` opens the breaker. */
  predicate OpensAt(cfg: Config, log: seq<Event>, k: nat)
    requires k < |log|
  {
    After(cfg, log[..k]).phase != Open && After(cfg, log[..k + 1]).phase == Open
  }

  /** After any opening, be it by the responses, by a failed probe or by an alarm, nothing is
      admitted and the breaker stays open for one cooldown from the time of the event. */
  lemma NothingForOneCooldown(cfg: Config, log: seq<Event>, k: nat, n: nat)
    requires InOrder(log) && k < n < |log| && OpensAt(cfg, log, k)
    requires log[n].at < log[k].at + cfg.cooldown as real
    ensures After(cfg, log[..n]).phase == Open && !Admitted(cfg, log, n)
  {
    hide After;
    assert log[..k + 1] == log[..k] + [log[k]];
    OpenedAtEvent(cfg, log[..k], log[k]);
    OpenHolds(cfg, log, k + 1, n + 1);
    OpenHolds(cfg, log, k + 1, n);
  }

  /** And a request that comes when the cooldown is over is admitted, if no alarm came in between. */
  lemma ThenOneIsAdmitted(cfg: Config, log: seq<Event>, k: nat, n: nat)
    requires InOrder(log) && k < n < |log| && OpensAt(cfg, log, k) && log[n].Request?
    requires log[n].at >= log[k].at + cfg.cooldown as real
    requires forall j :: k < j < n ==> !log[j].Attack? && log[j].at < log[k].at + cfg.cooldown as real
    ensures Admitted(cfg, log, n)
  {
    hide After, AlarmsAt, Since, Responses, Signals;
    var before, more := log[..k + 1], log[k + 1..n];
    assert before == log[..k] + [log[k]];
    OpenedAtEvent(cfg, log[..k], log[k]);
    forall j | 0 <= j < |more| && more[j].Request?
      ensures !Admits(cfg, After(cfg, before + more[..j]), more[j].at)
    {
      assert before + more[..j] == log[..k + 1 + j] && more[j] == log[k + 1 + j];
      NothingForOneCooldown(cfg, log, k, k + 1 + j);
    }
    assert log[..n] == before + more;
    OpenedByLastAlarm(cfg, before, more);
    forall j | 0 <= j < |more|
      ensures !AlarmsAt(cfg, before, more, j)
    {
      OnlyAttacksAlarm(cfg, before, more, j);
    }
  }

  // -------------------------------------------------------- how many it takes

  /** The responses, or the errors among them, not older than a cutoff. */
  function ResponsesSince(log: seq<Event>, cutoff: real, onlyErrors: bool): set<nat> {
    set k: nat | k < |log| && log[k].Response? && log[k].at >= cutoff && (onlyErrors ==> log[k].error)
  }

  /** At least as severe. */
  predicate Reaches(severity: Severity, floor: Severity) {
    match floor
    case Low => true
    case Medium => severity != Low
    case High => severity == High || severity == Critical
    case Critical => severity == Critical
  }

  function AttacksSince(log: seq<Event>, cutoff: real, floor: Severity): set<nat> {
    set k: nat | k < |log| && log[k].Attack? && log[k].at >= cutoff && Reaches(log[k].severity, floor)
  }

  lemma ErrorsStep(calls: seq<Stamped<bool>>, c: Stamped<bool>)
    ensures Errors(calls + [c]) == Errors(calls) + if c.item then 1 else 0
  {
    assert (calls + [c])[..|calls|] == calls;
  }

  lemma StrongStep(signals: seq<Stamped<Severity>>, c: Stamped<Severity>, floor: Severity)
    ensures Strong(signals + [c], floor) == Strong(signals, floor) + if Reaches(c.item, floor) then 1 else 0
  {
    assert (signals + [c])[..|signals|] == signals;
  }

  lemma ResponsesSinceStep(log: seq<Event>, e: Event, cutoff: real, onlyErrors: bool)
    ensures |ResponsesSince(log + [e], cutoff, onlyErrors)|
         == |ResponsesSince(log, cutoff, onlyErrors)|
            + if e.Response? && e.at >= cutoff && (onlyErrors ==> e.error) then 1 else 0
  {
    var n: nat, all, before := |log|, log + [e], ResponsesSince(log, cutoff, onlyErrors);
    assert forall k: nat :: k < |log| ==> all[k] == log[k];
    assert n !in before && all[n] == e;
    if e.Response? && e.at >= cutoff && (onlyErrors ==> e.error) {
      assert ResponsesSince(all, cutoff, onlyErrors) == before + {n};
    } else {
      assert ResponsesSince(all, cutoff, onlyErrors) == before;
    }
  }

  lemma AttacksSinceStep(log: seq<Event>, e: Event, cutoff: real, floor: Severity)
    ensures |AttacksSince(log + [e], cutoff, floor)|
         == |AttacksSince(log, cutoff, floor)|
            + if e.Attack? && e.at >= cutoff && Reaches(e.severity, floor) then 1 else 0
  {
    hide Reaches;
    var n: nat, all, before := |log|, log + [e], AttacksSince(log, cutoff, floor);
    assert forall k: nat :: k < |log| ==> all[k] == log[k];
    assert n !in before && all[n] == e;
    if e.Attack? && e.at >= cutoff && Reaches(e.severity, floor) {
      assert AttacksSince(all, cutoff, floor) == before + {n};
    } else {
      assert AttacksSince(all, cutoff, floor) == before;
    }
  }

  lemma ResponseCounts(past: seq<Event>, e: Event, cutoff: real)
    ensures var before, after := Since(Responses(past), cutoff), Since(Responses(past + [e]), cutoff);
      var more := if e.Response? && e.at >= cutoff then 1 else 0;
      |after| == |before| + more && Errors(after) == Errors(before) + if more == 1 && e.error then 1 else 0
  {
    hide Since, Responses, Errors;
    ResponsesStep(past, e);
    if e.Response? {
      SinceLast(Responses(past), Stamped(e.at, e.error), cutoff);
      ErrorsStep(Since(Responses(past), cutoff), Stamped(e.at, e.error));
      assert Since(Responses(past), cutoff) + [] == Since(Responses(past), cutoff);
    }
  }

  lemma AttackCounts(past: seq<Event>, e: Event, cutoff: real, floor: Severity)
    ensures Strong(Since(Signals(past + [e]), cutoff), floor)
         == Strong(Since(Signals(past), cutoff), floor)
            + if e.Attack? && e.at >= cutoff && Reaches(e.severity, floor) then 1 else 0
  {
    hide Since, Signals, Strong, Reaches;
    CB.SignalsStep(past, e);
    if e.Attack? {
      SinceLast(Signals(past), Stamped(e.at, e.severity), cutoff);
      StrongStep(Since(Signals(past), cutoff), Stamped(e.at, e.severity), floor);
      assert Since(Signals(past), cutoff) + [] == Since(Signals(past), cutoff);
    }
  }

  /** The counts that the breaker makes in its windows are counts of events. */
  lemma {:induction false} CountsAre(log: seq<Event>, cutoff: real, floor: Severity)
    ensures |Since(Responses(log), cutoff)| == |ResponsesSince(log, cutoff, false)|
    ensures Errors(Since(Responses(log), cutoff)) == |ResponsesSince(log, cutoff, true)|
    ensures Strong(Since(Signals(log), cutoff), floor) == |AttacksSince(log, cutoff, floor)|
  {
    if log == [] {
      CountsOfNothing(cutoff, floor);
    } else {
      hide Since, Responses, Signals, Errors, Strong, ResponsesSince, AttacksSince, Reaches;
      var past, e := log[..|log| - 1], log[|log| - 1];
      assert log == past + [e];
      CountsAre(past, cutoff, floor);
      ResponsesSinceStep(past, e, cutoff, false);
      ResponsesSinceStep(past, e, cutoff, true);
      AttacksSinceStep(past, e, cutoff, floor);
      ResponseCounts(past, e, cutoff);
      AttackCounts(past, e, cutoff, floor);
    }
  }

  lemma CountsOfNothing(cutoff: real, floor: Severity)
    ensures |Since(Responses([]), cutoff)| == |ResponsesSince([], cutoff, false)|
    ensures Errors(Since(Responses([]), cutoff)) == |ResponsesSince([], cutoff, true)|
    ensures Strong(Since(Signals([]), cutoff), floor) == |AttacksSince([], cutoff, floor)|
  {
    assert ResponsesSince([], cutoff, false) == {} && ResponsesSince([], cutoff, true) == {};
    assert AttacksSince([], cutoff, floor) == {};
  }

  /** A response opens a closed breaker, at its time, iff the events of the window have enough
      responses, and the share of errors among these reaches the threshold. */
  lemma ResponseTripsIff(cfg: Config, log: seq<Event>, now: real, error: bool)
    requires After(cfg, log).phase == Closed
    ensures var all := log + [Response(now, error)];
      var samples := |ResponsesSince(all, now - cfg.window as real, false)|;
      var errors := |ResponsesSince(all, now - cfg.window as real, true)|;
      if samples > 0 && samples >= cfg.minSamples && errors as real >= cfg.threshold * samples as real
      then After(cfg, all).phase == Open && After(cfg, all).openedAt == now
      else After(cfg, all) == After(cfg, log)
  {
    hide After, Since, Responses, Errors, ResponsesSince, Trips;
    var all := log + [Response(now, error)];
    CountsAre(all, now - cfg.window as real, Low);
    ResponseTripsExactly(cfg, log, now, error);
    AfterStep(cfg, log, Response(now, error));
  }

  /** A signal opens or re-arms the breaker, at its time, iff it and enough others of the window
      are at least as severe as the floor. */
  lemma AttackTripsIff(cfg: Config, log: seq<Event>, now: real, severity: Severity)
    ensures var all := log + [Attack(now, severity)];
      if && Reaches(severity, cfg.minSeverity)
         && |AttacksSince(all, now - cfg.attackWindow as real, cfg.minSeverity)| >= cfg.minSignals
      then After(cfg, all) == After(cfg, log).(phase := Open, openedAt := now)
      else After(cfg, all) == After(cfg, log)
  {
    hide After, Since, Signals, Strong, AttacksSince;
    CountsAre(log + [Attack(now, severity)], now - cfg.attackWindow as real, cfg.minSeverity);
    AttackTripsExactly(cfg, log, now, severity);
  }

  // ------------------------------------------------------------- what it answers

  /** The gate's answer at `now`: open for one cooldown after it was opened, then one probe. */
  lemma GateTells<S>(cfg: Config, s: State, now: real)
    requires 0 <= s.probes <= 1 && (s.phase == Closed ==> s.probes == 0)
    ensures var d := CB.Gate<S>(cfg, Cooled(cfg, s, now), now);
      var wait := s.openedAt + cfg.cooldown as real - now;
      match s.phase
      case Closed => d == Neutral()
      case HalfOpen =>
        d == if s.probes == 0 then Neutral()
             else Decision(Block, Some("circuit_half_open"), ["circuit_breaker.half_open"], None, map[], Some(503),
                           None)
      case Open =>
        d == if wait <= 0.0 then Neutral()
             else Decision(Block, Some("circuit_open"), ["circuit_breaker.open"], None, map[], Some(503), Some(wait))
  {
  }
}
