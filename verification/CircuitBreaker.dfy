/** Circuit breaker (interventions/circuit_breaker.py): the object, which keeps pruned deques
    and is proved to be where its log leads. */
module CircuitBreaker {
  import opened Common
  import opened Decisions
  import opened SlidingWindow
  import opened Breaker

  lemma SignalsStep(log: seq<Event>, e: Event)
    ensures Signals(log + [e]) == if e.Attack? then Signals(log) + [Stamped(e.at, e.severity)] else Signals(log)
  {
    assert (log + [e])[..|log|] == log;
  }

  lemma InOrderStep(log: seq<Event>, e: Event)
    requires InOrder(log) && (log != [] ==> log[|log| - 1].at <= e.at)
    ensures InOrder(log + [e])
  {
  }

  ghost predicate NotAfter<T>(s: seq<Stamped<T>>, log: seq<Event>) {
    s != [] ==> log != [] && s[|s| - 1].at <= log[|log| - 1].at
  }

  lemma {:induction false} HistoriesAscend(log: seq<Event>)
    requires InOrder(log)
    ensures Ascending(Responses(log)) && Ascending(Signals(log))
    ensures NotAfter(Responses(log), log) && NotAfter(Signals(log), log)
  {
    hide Responses, Signals, Ascending, InOrder;
    if log == [] {
      assert Responses(log) == [] && Signals(log) == [] by { HistoriesEmpty(); }
      AscendEmpty<bool>();
      AscendEmpty<Severity>();
    } else {
      var past, e := log[..|log| - 1], log[|log| - 1];
      assert log == past + [e];
      InOrderInit(log);
      HistoriesAscend(past);
      ResponsesStep(past, e);
      SignalsStep(past, e);
      if e.Response? {
        AscendAppend(Responses(past), Stamped(e.at, e.error));
      } else if e.Attack? {
        AscendAppend(Signals(past), Stamped(e.at, e.severity));
      }
    }
  }

  lemma InOrderInit(log: seq<Event>)
    requires InOrder(log) && log != []
    ensures InOrder(log[..|log| - 1])
    ensures |log| > 1 ==> log[|log| - 2].at <= log[|log| - 1].at
  {
  }

  lemma HistoriesEmpty()
    ensures Responses([]) == [] && Signals([]) == []
  {
  }

  /** The decision at the gate, for a breaker that has already cooled down if it was due. */
  function Gate<S>(cfg: Config, c: State, now: real): Decision<S> {
    if c.phase == Open then
      Decision(Block, Some("circuit_open"), ["circuit_breaker.open"], None, map[], Some(503),
               Some(RetryAfter(cfg, c, now)))
    else if c.phase == HalfOpen && c.probes > 0 then
      Decision(Block, Some("circuit_half_open"), ["circuit_breaker.half_open"], None, map[], Some(503), None)
    else Neutral()
  }

  function GateFindings(c: State): seq<Detection> {
    if c.phase == Open then [Detection("circuit_breaker", "open", High)] else []
  }

  class CircuitBreaker<S(==)> {
    const cfg: Config
    var phase: Phase
    var openedAt: real
    var calls: seq<Stamped<bool>>
    var attacks: seq<Stamped<Severity>>
    var probes: int
    /** Everything recorded so far. */
    ghost var log: seq<Event>

    function View(): State
      reads this
    {
      State(phase, openedAt, probes)
    }

    /** The deques are the windows of the log. */
    ghost predicate Tracked()
      reads this`log, this`calls, this`attacks
    {
      && InOrder(log)
      && calls == Window(Responses(log), cfg.window)
      && attacks == Window(Signals(log), cfg.attackWindow)
    }

    /** And the breaker is where the log leads. */
    ghost predicate Valid()
      reads this
    {
      Tracked() && View() == After(cfg, log)
    }

    /** The clock does not run backwards. */
    ghost predicate NotBefore(now: real)
      reads this
    {
      log != [] ==> log[|log| - 1].at <= now
    }

    constructor (cfg: Config)
      ensures Valid() && this.cfg == cfg && log == []
    {
      this.cfg := cfg;
      phase, openedAt, probes := Closed, 0.0, 0;
      calls, attacks, log := [], [], [];
    }

    method EvaluateRequest(now: real) returns (d: LensDecision<S>, detections: seq<Detection>)
      requires Valid() && NotBefore(now)
      modifies this
      ensures Valid() && fresh(d)
      ensures !cfg.enabled ==> d.View() == Neutral() && detections == [] && log == old(log)
      ensures cfg.enabled ==>
        && log == old(log) + [Request(now)]
        && d.View() == Gate(cfg, Cooled(cfg, old(View()), now), now)
        && (d.View() == Neutral() <==> Admits(cfg, old(View()), now))
        && detections == GateFindings(Cooled(cfg, old(View()), now))
    {
      hide After, Responses, Signals, Since, Window, InOrder;
      detections := [];
      if !cfg.enabled {
        d := new LensDecision(Neutral());
        return;
      }
      InOrderStep(log, Request(now));
      AfterStep(cfg, log, Request(now));
      ResponsesStep(log, Request(now));
      SignalsStep(log, Request(now));
      log := log + [Request(now)];
      MaybeTransitionFromOpen(now);
      if phase == Open {
        detections := [Detection("circuit_breaker", "open", High)];
        d := new LensDecision(
          Decision(Block, Some("circuit_open"), ["circuit_breaker.open"], None, map[], Some(503),
                   Some(Max(0.0, openedAt + cfg.cooldown as real - now))));
        return;
      }
      if phase == HalfOpen && probes > 0 {
        d := new LensDecision(
          Decision(Block, Some("circuit_half_open"), ["circuit_breaker.half_open"], None, map[], Some(503), None));
        return;
      }
      if phase == HalfOpen {
        probes := probes + 1;
      }
      d := new LensDecision(Neutral());
    }

    /** Records an outcome. Python raises ZeroDivisionError when the window is empty and no
        minimum is asked for; that is exactly the case of a negative window. */
    method RecordResponse(now: real, error: bool) returns (raised: bool)
      requires Valid() && NotBefore(now)
      modifies this
      ensures Valid()
      ensures !cfg.enabled ==> !raised && log == old(log) && View() == old(View())
      ensures cfg.enabled ==>
        && log == old(log) + [Response(now, error)]
        && calls == RecentCalls(cfg, log, now)
      ensures raised <==> cfg.enabled && old(phase) == Closed && cfg.window < 0 && cfg.minSamples <= 0
    {
      hide After, Next, Responses, Since, Ascending, Errors, Trips, Tracked, OnResponse;
      raised := false;
      if !cfg.enabled {
        return;
      }
      AppendCall(now, error);
      AfterStep(cfg, old(log), Response(now, error));
      assert After(cfg, log) == OnResponse(cfg, View(), calls, now, error);
      raised := React(now, error);
      assert View() == After(cfg, log) && Tracked();
    }

    method React(now: real, error: bool) returns (raised: bool)
      requires Ascending(calls) && Since(calls, now - cfg.window as real) == calls
      modifies this`phase, this`openedAt, this`probes, this`calls
      ensures calls == old(calls)
      ensures raised <==> old(phase) == Closed && |calls| == 0 && cfg.minSamples <= 0
      ensures View() == OnResponse(cfg, old(View()), calls, now, error)
    {
      hide Since, Ascending, Errors, Trips;
      raised := false;
      if phase == HalfOpen {
        probes := if 0 >= probes - 1 then 0 else probes - 1;
        if error {
          Reopen(now);
        } else {
          Close();
        }
        return;
      }
      if phase == Closed {
        var trip;
        raised, trip := ShouldTrip(now);
        if trip {
          Reopen(now);
        }
      }
    }

    method RecordAttackSignal(now: real, severity: Severity)
      requires Valid() && NotBefore(now)
      modifies this
      ensures Valid()
      ensures !cfg.enabled || !cfg.failClosed ==> log == old(log) && View() == old(View())
      ensures cfg.enabled && cfg.failClosed ==>
        && log == old(log) + [Attack(now, severity)]
        && attacks == RecentSignals(cfg, log, now)
    {
      hide After, Next, Signals, Since, Strong, Tracked;
      if !cfg.enabled || !cfg.failClosed {
        return;
      }
      AppendAttack(now, severity);
      AfterStep(cfg, old(log), Attack(now, severity));
      assert After(cfg, log) == OnAttack(cfg, old(View()), attacks, now, severity);
      if severity.Rank() < cfg.minSeverity.Rank() {
        return;
      }
      var recentStrong := CountStrong();
      if recentStrong >= cfg.minSignals {
        Reopen(now);
      }
    }

    /** Appends to the call deque and prunes it. */
    method AppendCall(now: real, error: bool)
      requires Tracked() && NotBefore(now)
      modifies this`calls, this`log
      ensures Tracked() && log == old(log) + [Response(now, error)]
      ensures calls == RecentCalls(cfg, log, now)
      ensures Ascending(calls) && Since(calls, now - cfg.window as real) == calls
      ensures |calls| == 0 <==> cfg.window < 0
    {
      hide Responses, Signals, Since, Window, InOrder, Ascending;
      ghost var e := Response(now, error);
      InOrderStep(log, e);
      ResponsesStep(log, e);
      SignalsStep(log, e);
      log := log + [e];
      HistoriesAscend(log);
      calls := Push(Responses(old(log)), calls, Stamped(now, error), cfg.window);
      Recent(Responses(log), cfg.window);
    }

    /** Appends to the attack deque and prunes it. */
    method AppendAttack(now: real, severity: Severity)
      requires Tracked() && NotBefore(now)
      modifies this`attacks, this`log
      ensures Tracked() && log == old(log) + [Attack(now, severity)]
      ensures attacks == RecentSignals(cfg, log, now)
    {
      hide Responses, Signals, Since, Window, InOrder, Ascending;
      ghost var e := Attack(now, severity);
      InOrderStep(log, e);
      ResponsesStep(log, e);
      SignalsStep(log, e);
      log := log + [e];
      HistoriesAscend(log);
      attacks := Push(Signals(old(log)), attacks, Stamped(now, severity), cfg.attackWindow);
      Recent(Signals(log), cfg.attackWindow);
    }

    method MaybeTransitionFromOpen(now: real)
      modifies this`phase, this`probes
      ensures View() == Cooled(cfg, old(View()), now)
    {
      if phase == Open && now - openedAt >= cfg.cooldown as real {
        phase, probes := HalfOpen, 0;
      }
    }

    method ShouldTrip(now: real) returns (raised: bool, trip: bool)
      requires Ascending(calls) && Since(calls, now - cfg.window as real) == calls
      modifies this`calls
      ensures calls == old(calls)
      ensures raised <==> calls == [] && cfg.minSamples <= 0
      ensures trip <==> Trips(cfg, calls)
    {
      calls := DropBefore(calls, now - cfg.window as real);
      if |calls| < cfg.minSamples {
        return false, false;
      }
      var errors := CountErrors();
      if |calls| == 0 {
        return true, false;
      }
      var rate := errors as real / |calls| as real;
      return false, rate >= cfg.threshold;
    }

    method CountErrors() returns (n: nat)
      ensures n == Errors(calls)
    {
      n := 0;
      for i := 0 to |calls|
        invariant n == Errors(calls[..i])
      {
        if calls[i].item {
          n := n + 1;
        }
        assert calls[..i + 1][..i] == calls[..i];
      }
      assert calls[..|calls|] == calls;
    }

    method CountStrong() returns (n: nat)
      ensures n == Strong(attacks, cfg.minSeverity)
    {
      n := 0;
      for i := 0 to |attacks|
        invariant n == Strong(attacks[..i], cfg.minSeverity)
      {
        if attacks[i].item.Rank() >= cfg.minSeverity.Rank() {
          n := n + 1;
        }
        assert attacks[..i + 1][..i] == attacks[..i];
      }
      assert attacks[..|attacks|] == attacks;
    }

    method Reopen(now: real)
      modifies this`phase, this`openedAt
      ensures phase == Open && openedAt == now
    {
      phase, openedAt := Open, now;
    }

    method Close()
      modifies this`phase, this`probes
      ensures phase == Closed && probes == 0
    {
      phase, probes := Closed, 0;
    }
  }

  /** A window pruned at the time of its newest entry is empty iff its width is negative,
      and pruning it again changes nothing. */
  lemma Recent<T>(s: seq<Stamped<T>>, width: int)
    requires s != [] && Ascending(s)
    ensures Window(s, width) == Since(s, s[|s| - 1].at - width as real)
    ensures Window(s, width) == [] <==> width < 0
    ensures Ascending(Window(s, width))
    ensures Since(Window(s, width), s[|s| - 1].at - width as real) == Window(s, width)
  {
    hide Since, Ascending;
    var cutoff := s[|s| - 1].at - width as real;
    var k := SinceSuffix(s, cutoff);
    AscendSuffix(s, k);
    SinceTwice(s, cutoff, cutoff);
    assert s[|s| - 1].at >= cutoff <==> |s| - 1 >= k;
  }
}
