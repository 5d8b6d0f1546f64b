/** The circuit breaker as a state machine over its log (interventions/circuit_breaker.py).

    `After` says where any log of requests, responses and attack signals leads, looking at
    the complete log; what holds over all runs is proved about it. */
module Breaker {
  import opened Common
  import opened SlidingWindow

  datatype Config = Config(
    enabled: bool,
    window: int,
    minSamples: int,
    threshold: real,
    cooldown: int,
    failClosed: bool,
    minSeverity: Severity,
    attackWindow: int,
    minSignals: int)

  datatype Phase = Closed | HalfOpen | Open

  datatype State = State(phase: Phase, openedAt: real, probes: int)

  const INITIAL := State(Closed, 0.0, 0)

  datatype Event =
    | Request(at: real)
    | Response(at: real, error: bool)
    | Attack(at: real, severity: Severity)

  ghost predicate InOrder(log: seq<Event>) {
    Ordered(log, (e: Event) => e.at)
  }

  // --------------------------------------------------- what the log contains

  function Responses(log: seq<Event>): seq<Stamped<bool>> {
    if log == [] then []
    else
      var rest, e := Responses(log[..|log| - 1]), log[|log| - 1];
      if e.Response? then rest + [Stamped(e.at, e.error)] else rest
  }

  function Signals(log: seq<Event>): seq<Stamped<Severity>> {
    if log == [] then []
    else
      var rest, e := Signals(log[..|log| - 1]), log[|log| - 1];
      if e.Attack? then rest + [Stamped(e.at, e.severity)] else rest
  }

  function Errors(calls: seq<Stamped<bool>>): nat {
    if calls == [] then 0
    else Errors(calls[..|calls| - 1]) + if calls[|calls| - 1].item then 1 else 0
  }

  function Strong(signals: seq<Stamped<Severity>>, floor: Severity): nat {
    if signals == [] then 0
    else
      Strong(signals[..|signals| - 1], floor)
      + if signals[|signals| - 1].item.Rank() >= floor.Rank() then 1 else 0
  }

  // ------------------------------------------------------ the state machine

  /** Enough samples, and a share of errors at or above the threshold. */
  predicate Trips(cfg: Config, calls: seq<Stamped<bool>>) {
    && calls != []
    && |calls| >= cfg.minSamples
    && Errors(calls) as real / |calls| as real >= cfg.threshold
  }

  /** A signal at the severity floor, and enough such signals in the window. */
  predicate Alarms(cfg: Config, signals: seq<Stamped<Severity>>, severity: Severity) {
    severity.Rank() >= cfg.minSeverity.Rank() && Strong(signals, cfg.minSeverity) >= cfg.minSignals
  }

  function Opened(s: State, now: real): State {
    s.(phase := Open, openedAt := now)
  }

  /** An open breaker whose cooldown is over becomes half-open with no probe in flight. */
  function Cooled(cfg: Config, s: State, now: real): State {
    if s.phase == Open && now - s.openedAt >= cfg.cooldown as real then State(HalfOpen, s.openedAt, 0) else s
  }

  predicate Admits(cfg: Config, s: State, now: real) {
    var c := Cooled(cfg, s, now);
    c.phase == Closed || (c.phase == HalfOpen && c.probes <= 0)
  }

  function OnRequest(cfg: Config, s: State, now: real): State {
    var c := Cooled(cfg, s, now);
    if c.phase == HalfOpen && c.probes <= 0 then c.(probes := c.probes + 1) else c
  }

  function OnResponse(cfg: Config, s: State, calls: seq<Stamped<bool>>, now: real, error: bool): State {
    match s.phase
    case HalfOpen =>
      var left := if s.probes >= 1 then s.probes - 1 else 0;
      if error then State(Open, now, left) else State(Closed, s.openedAt, 0)
    case Closed => if Trips(cfg, calls) then Opened(s, now) else s
    case Open => s
  }

  function OnAttack(cfg: Config, s: State, signals: seq<Stamped<Severity>>, now: real, severity: Severity): State {
    if Alarms(cfg, signals, severity) then Opened(s, now) else s
  }

  /** The full history inside the error window at the moment of a response. */
  function RecentCalls(cfg: Config, log: seq<Event>, now: real): seq<Stamped<bool>> {
    Since(Responses(log), now - cfg.window as real)
  }

  function RecentSignals(cfg: Config, log: seq<Event>, now: real): seq<Stamped<Severity>> {
    Since(Signals(log), now - cfg.attackWindow as real)
  }

  /** The state after the last event `e` of `log`, when `s` is the state before it. */
  function Next(cfg: Config, s: State, log: seq<Event>, e: Event): State {
    match e
    case Request(now) => OnRequest(cfg, s, now)
    case Response(now, error) =>
      OnResponse(cfg, s, RecentCalls(cfg, log, now), now, error)
    case Attack(now, severity) =>
      OnAttack(cfg, s, RecentSignals(cfg, log, now), now, severity)
  }

  /** The state that a log leads to. */
  function After(cfg: Config, log: seq<Event>): State {
    if log == [] then INITIAL
    else Next(cfg, After(cfg, log[..|log| - 1]), log, log[|log| - 1])
  }

  /** Event number `i` is a request that was let through. */
  predicate Admitted(cfg: Config, log: seq<Event>, i: nat)
    requires i < |log|
  {
    log[i].Request? && Admits(cfg, After(cfg, log[..i]), log[i].at)
  }

  lemma AfterStep(cfg: Config, log: seq<Event>, e: Event)
    ensures After(cfg, log + [e]) == Next(cfg, After(cfg, log), log + [e], e)
    ensures e.Request? ==> After(cfg, log + [e]) == OnRequest(cfg, After(cfg, log), e.at)
    ensures e.Response? ==>
      After(cfg, log + [e]) == OnResponse(cfg, After(cfg, log), RecentCalls(cfg, log + [e], e.at), e.at, e.error)
    ensures e.Attack? ==>
      After(cfg, log + [e]) == OnAttack(cfg, After(cfg, log), RecentSignals(cfg, log + [e], e.at), e.at, e.severity)
  {
    assert (log + [e])[..|log|] == log;
  }

  // -------------------------------------------------------- exact tripping

  /** A closed breaker opens at a response iff the window then holds enough samples and
      their share of errors reaches the threshold. Unless the window is negative it holds the
      response itself, so the share is no division by zero. */
  lemma ResponseTripsExactly(cfg: Config, log: seq<Event>, now: real, error: bool)
    requires After(cfg, log).phase == Closed
    ensures var recent := RecentCalls(cfg, log + [Response(now, error)], now);
      && (cfg.window >= 0 ==> |recent| > 0)
      && (After(cfg, log + [Response(now, error)]).phase == Open
          <==> && |recent| > 0 && |recent| >= cfg.minSamples
               && Errors(recent) as real >= cfg.threshold * |recent| as real)
  {
    hide After, Next, Since, Responses, Errors;
    var all := log + [Response(now, error)];
    AfterStep(cfg, log, Response(now, error));
    ResponsesStep(log, Response(now, error));
    SinceLast(Responses(log), Stamped(now, error), now - cfg.window as real);
    var recent := RecentCalls(cfg, all, now);
    if |recent| > 0 {
      ShareAtLeast(Errors(recent), |recent|, cfg.threshold);
    }
  }

  lemma ShareAtLeast(errors: nat, samples: nat, threshold: real)
    requires samples > 0
    ensures errors as real / samples as real >= threshold <==> errors as real >= threshold * samples as real
  {
    var share, n := errors as real / samples as real, samples as real;
    assert share * n == errors as real;
    assert (share - threshold) * n == errors as real - threshold * n;
  }

  /** Whatever the state, an attack signal opens or re-arms the breaker iff it meets the
      severity floor and the window then holds enough signals that do; else it changes nothing. */
  lemma AttackTripsExactly(cfg: Config, log: seq<Event>, now: real, severity: Severity)
    ensures var before, after := After(cfg, log), After(cfg, log + [Attack(now, severity)]);
      if && severity.Rank() >= cfg.minSeverity.Rank()
         && Strong(RecentSignals(cfg, log + [Attack(now, severity)], now), cfg.minSeverity) >= cfg.minSignals
      then after == before.(phase := Open, openedAt := now)
      else after == before
  {
    hide After, Next, Since, Signals, Strong;
    AfterStep(cfg, log, Attack(now, severity));
  }

  // ------------------------------------------------------------ runs of events

  /** Event number `k` of `more`, which comes after `log`, is an attack signal that alarms. */
  predicate AlarmsAt(cfg: Config, log: seq<Event>, more: seq<Event>, k: nat)
    requires k < |more|
  {
    more[k].Attack? && Alarms(cfg, RecentSignals(cfg, log + more[..k + 1], more[k].at), more[k].severity)
  }

  predicate SomeAlarm(cfg: Config, log: seq<Event>, more: seq<Event>) {
    exists k :: 0 <= k < |more| && AlarmsAt(cfg, log, more, k)
  }

  /** Event number `k` is the last one to alarm. */
  predicate LastAlarm(cfg: Config, log: seq<Event>, more: seq<Event>, k: nat)
    requires k < |more|
  {
    AlarmsAt(cfg, log, more, k) && forall j :: k < j < |more| ==> !AlarmsAt(cfg, log, more, j)
  }

  lemma AlarmsInPrefix(cfg: Config, log: seq<Event>, init: seq<Event>, e: Event)
    ensures forall k :: 0 <= k < |init| ==> (AlarmsAt(cfg, log, init + [e], k) <==> AlarmsAt(cfg, log, init, k))
  {
    forall k | 0 <= k < |init|
      ensures AlarmsAt(cfg, log, init + [e], k) <==> AlarmsAt(cfg, log, init, k)
    {
      assert (init + [e])[..k + 1] == init[..k + 1];
    }
  }

  /** A first event that is no attack signal may as well belong to the log. */
  lemma AlarmsAfter(cfg: Config, log: seq<Event>, e: Event, more: seq<Event>)
    requires !e.Attack?
    ensures SomeAlarm(cfg, log, [e] + more) <==> SomeAlarm(cfg, log + [e], more)
  {
    hide Alarms, RecentSignals;
    var all := [e] + more;
    forall k | 0 <= k < |more|
      ensures AlarmsAt(cfg, log, all, k + 1) <==> AlarmsAt(cfg, log + [e], more, k)
    {
      assert log + all[..k + 2] == log + [e] + more[..k + 1];
    }
    if k :| 0 <= k < |all| && AlarmsAt(cfg, log, all, k) {
      assert AlarmsAt(cfg, log + [e], more, k - 1);
    }
  }

  /** One more event, seen from the end of a run. */
  lemma RunStep(cfg: Config, log: seq<Event>, init: seq<Event>, e: Event)
    ensures log + (init + [e]) == log + init + [e]
    ensures e.Attack? ==>
      After(cfg, log + init + [e])
      == if AlarmsAt(cfg, log, init + [e], |init|) then Opened(After(cfg, log + init), e.at) else After(cfg, log + init)
  {
    hide After, Next, Alarms, Since, Signals;
    AfterStep(cfg, log + init, e);
    assert log + (init + [e]) == log + init + [e];
    assert (init + [e])[..|init| + 1] == init + [e];
  }

  /** A run of attack signals opens the breaker iff one of them alarms; else it changes nothing. */
  lemma {:induction false} AttackRunOpensIff(cfg: Config, log: seq<Event>, more: seq<Event>)
    requires forall k :: 0 <= k < |more| ==> more[k].Attack?
    ensures SomeAlarm(cfg, log, more) ==> After(cfg, log + more).phase == Open
    ensures !SomeAlarm(cfg, log, more) ==> After(cfg, log + more) == After(cfg, log)
  {
    hide After, AlarmsAt;
    if more == [] {
      assert log + more == log;
    } else {
      var init, e := more[..|more| - 1], more[|more| - 1];
      assert more == init + [e];
      AttackRunOpensIff(cfg, log, init);
      AlarmsInPrefix(cfg, log, init, e);
      RunStep(cfg, log, init, e);
    }
  }

  /** An open breaker, while no request is let through, was opened by the last alarm; if there
      was none, nothing that was requested, reported or signalled has moved it. */
  lemma {:induction false} OpenedByLastAlarm(cfg: Config, log: seq<Event>, more: seq<Event>)
    requires After(cfg, log).phase == Open
    requires forall k :: 0 <= k < |more| && more[k].Request? ==> !Admits(cfg, After(cfg, log + more[..k]), more[k].at)
    ensures After(cfg, log + more).phase == Open
    ensures !SomeAlarm(cfg, log, more) ==> After(cfg, log + more) == After(cfg, log)
    ensures forall k :: 0 <= k < |more| && LastAlarm(cfg, log, more, k) ==>
      After(cfg, log + more).openedAt == more[k].at
  {
    hide After, AlarmsAt, Since, Responses;
    if more == [] {
      assert log + more == log;
    } else {
      var init, e := more[..|more| - 1], more[|more| - 1];
      assert more == init + [e];
      assert forall k :: 0 <= k < |init| ==> init[..k] == more[..k];
      OpenedByLastAlarm(cfg, log, init);
      AlarmsInPrefix(cfg, log, init, e);
      RunStep(cfg, log, init, e);
      AfterStep(cfg, log + init, e);
      assert e.Request? ==> !Admits(cfg, After(cfg, log + init), e.at);
      assert !e.Attack? ==> !AlarmsAt(cfg, log, more, |init|) by { OnlyAttacksAlarm(cfg, log, more, |init|); }
    }
  }

  lemma OnlyAttacksAlarm(cfg: Config, log: seq<Event>, more: seq<Event>, k: nat)
    requires k < |more|
    ensures AlarmsAt(cfg, log, more, k) ==> more[k].Attack?
  {
  }

  lemma {:induction false} HasLastAlarm(cfg: Config, log: seq<Event>, more: seq<Event>, n: nat) returns (k: nat)
    requires n < |more| && AlarmsAt(cfg, log, more, n)
    ensures n <= k < |more| && LastAlarm(cfg, log, more, k)
    decreases |more| - n
  {
    hide AlarmsAt;
    k := n;
    if !LastAlarm(cfg, log, more, n) {
      var j :| n < j < |more| && AlarmsAt(cfg, log, more, j);
      k := HasLastAlarm(cfg, log, more, j);
    }
  }

  /** An open breaker is open for one cooldown, counted from when it was opened, iff no attack
      signal alarms at a later time. */
  lemma OneCooldownIff(cfg: Config, log: seq<Event>, more: seq<Event>)
    requires After(cfg, log).phase == Open && InOrder(more)
    requires forall k :: 0 <= k < |more| ==> After(cfg, log).openedAt <= more[k].at
    requires forall k :: 0 <= k < |more| && more[k].Request? ==> !Admits(cfg, After(cfg, log + more[..k]), more[k].at)
    ensures
      (forall t :: Admits(cfg, After(cfg, log + more), t) <==> t >= After(cfg, log).openedAt + cfg.cooldown as real)
      <==> forall k :: 0 <= k < |more| && AlarmsAt(cfg, log, more, k) ==> more[k].at == After(cfg, log).openedAt
  {
    hide After, AlarmsAt;
    OpenedByLastAlarm(cfg, log, more);
    var last := After(cfg, log + more).openedAt;
    var due := After(cfg, log).openedAt + cfg.cooldown as real;
    assert Admits(cfg, After(cfg, log + more), due) <==> due >= last + cfg.cooldown as real;
    if k :| 0 <= k < |more| && AlarmsAt(cfg, log, more, k) {
      var n := HasLastAlarm(cfg, log, more, k);
      assert more[k].at <= more[n].at == last;
    }
  }

  lemma ResponsesStep(log: seq<Event>, e: Event)
    ensures Responses(log + [e]) == if e.Response? then Responses(log) + [Stamped(e.at, e.error)] else Responses(log)
  {
    assert (log + [e])[..|log|] == log;
  }

  // ---------------------------------------------------- safety over all runs

  /** Between calls a half-open breaker has exactly one probe in flight, a closed one
      none, and there is never a second one. */
  lemma {:induction false} ProbeSlots(cfg: Config, log: seq<Event>)
    ensures var s := After(cfg, log);
      && 0 <= s.probes <= 1
      && (s.phase == HalfOpen ==> s.probes == 1)
      && (s.phase == Closed ==> s.probes == 0)
  {
    if log != [] {
      ProbeSlots(cfg, log[..|log| - 1]);
    }
  }

  /** An open breaker changes phase exactly at a request that comes a full cooldown
      after it was last opened or re-armed. */
  lemma OpenEndsAtCooldown(cfg: Config, log: seq<Event>, e: Event)
    requires After(cfg, log).phase == Open
    ensures After(cfg, log + [e]).phase != Open
       <==> e.Request? && e.at >= After(cfg, log).openedAt + cfg.cooldown as real
    ensures After(cfg, log + [e]).phase != Open ==> After(cfg, log + [e]).phase == HalfOpen
  {
    AfterStep(cfg, log, e);
  }

  /** Over a whole run: until a cooldown has passed since it was opened, the breaker stays
      open and lets nothing through, whatever is requested or reported. */
  lemma {:induction false} OpenHolds(cfg: Config, log: seq<Event>, k: nat, n: nat)
    requires k <= n <= |log| && After(cfg, log[..k]).phase == Open
    requires InOrder(log) && (n > k ==> After(cfg, log[..k]).openedAt <= log[k].at)
    requires n > k ==> log[n - 1].at < After(cfg, log[..k]).openedAt + cfg.cooldown as real
    ensures After(cfg, log[..n]).phase == Open
    ensures After(cfg, log[..n]).openedAt >= After(cfg, log[..k]).openedAt
    ensures forall i :: k <= i < n ==> !Admitted(cfg, log, i)
    decreases n
  {
    hide Since, Responses, Signals, Alarms, After, Next;
    if n > k {
      OpenHolds(cfg, log, k, n - 1);
      assert log[..n] == log[..n - 1] + [log[n - 1]];
      AfterStep(cfg, log[..n - 1], log[n - 1]);
    }
  }

  /** A half-open breaker admits nothing, however long it waits, until some response is
      reported or an attack alarm opens it again. */
  lemma {:induction false} HalfOpenWaitsForReport(cfg: Config, log: seq<Event>, n: nat)
    requires n <= |log| && After(cfg, log[..n]).phase == HalfOpen
    requires forall k :: n <= k < |log| ==> log[k].Request?
    ensures After(cfg, log) == After(cfg, log[..n])
    ensures forall k :: n <= k < |log| ==> !Admitted(cfg, log, k)
    decreases |log|
  {
    hide After, Next, OnResponse, OnAttack;
    if n == |log| {
      assert log[..n] == log;
    } else {
      var past := log[..|log| - 1];
      assert past[..n] == log[..n];
      HalfOpenWaitsForReport(cfg, past, n);
      ProbeSlots(cfg, past);
      AfterStep(cfg, past, log[|log| - 1]);
      assert past + [log[|log| - 1]] == log;
      forall k | n <= k < |log|
        ensures !Admitted(cfg, log, k)
      {
        if k < |past| {
          assert !Admitted(cfg, past, k) && past[..k] == log[..k] && past[k] == log[k];
        }
      }
    }
  }

  /** No state from event `from` on up to, and not counting, event `to` is closed. */
  ghost predicate NeverClosed(cfg: Config, log: seq<Event>, from: nat, to: nat)
    requires to <= |log|
  {
    forall k :: from < k <= to ==> After(cfg, log[..k]).phase != Closed
  }

  /** Since a probe went out at event `i`, an open breaker was opened at that time or later. */
  lemma {:induction false} OpenedSince(cfg: Config, log: seq<Event>, i: nat, k: nat)
    requires i < k <= |log| && InOrder(log) && Admitted(cfg, log, i) && NeverClosed(cfg, log, i, k)
    ensures var s := After(cfg, log[..k]); s.phase == Open ==> s.openedAt >= log[i].at
    decreases k
  {
    hide Trips, Alarms, Responses, Signals, Since;
    var past, e := log[..k - 1], log[k - 1];
    assert log[..k] == past + [e];
    AfterStep(cfg, past, e);
    if k > i + 1 {
      OpenedSince(cfg, log, i, k - 1);
    }
  }

  /** Probe spacing: two requests admitted without a closed state in between are at least
      a cooldown apart. */
  lemma ProbesSpaced(cfg: Config, log: seq<Event>, i: nat, j: nat)
    requires i < j < |log| && InOrder(log) && NeverClosed(cfg, log, i, j)
    requires Admitted(cfg, log, i) && Admitted(cfg, log, j)
    ensures log[j].at - log[i].at >= cfg.cooldown as real
  {
    OpenedSince(cfg, log, i, j);
    ProbeSlots(cfg, log[..j]);
  }

  /** The admitted requests among events `from <= k < to`, in order. */
  function AdmittedIn(cfg: Config, log: seq<Event>, from: nat, to: nat): (r: seq<nat>)
    requires from <= to <= |log|
    ensures forall x :: 0 <= x < |r| ==> from <= r[x] < to && Admitted(cfg, log, r[x])
    ensures forall x, y :: 0 <= x < y < |r| ==> r[x] < r[y]
  {
    Where((k: nat) => k < |log| && Admitted(cfg, log, k), from, to)
  }

  lemma AdmittedInAll(cfg: Config, log: seq<Event>, from: nat, to: nat, k: nat)
    requires from <= k < to <= |log| && Admitted(cfg, log, k)
    ensures k in AdmittedIn(cfg, log, from, to)
  {
    WhereAll((k: nat) => k < |log| && Admitted(cfg, log, k), from, to, k);
  }

  /** At most 1 + floor(L / cooldown) requests pass in a stretch of length L without a closed state. */
  lemma ProbeRate(cfg: Config, log: seq<Event>, from: nat, to: nat, length: real)
    requires from < to <= |log| && InOrder(log) && NeverClosed(cfg, log, from, to)
    requires cfg.cooldown > 0 && log[to - 1].at - log[from].at <= length
    ensures |AdmittedIn(cfg, log, from, to)| <= 1 + (length / cfg.cooldown as real).Floor
  {
    hide Admitted, After;
    var probes := AdmittedIn(cfg, log, from, to);
    var times := seq(|probes|, x requires 0 <= x < |probes| => log[probes[x]].at);
    forall x, y | 0 <= x < y < |times|
      ensures times[y] - times[x] >= cfg.cooldown as real
    {
      ProbesSpaced(cfg, log, probes[x], probes[y]);
    }
    SpacedCount(times, cfg.cooldown as real, length);
  }

  // ------------------------------------------------------------- liveness

  /** The moment a request is next admitted. */
  function ReadyAt(cfg: Config, s: State, now: real): real {
    if s.phase == Open then Max(now, s.openedAt + cfg.cooldown as real) else now
  }

  /** From every reachable state one clock advance, one request and one success close the
      breaker, and that request is let through. */
  lemma Recovers(cfg: Config, log: seq<Event>, now: real)
    ensures var s := After(cfg, log);
      var at := ReadyAt(cfg, s, now);
      && (s.phase == Open ==> Admits(cfg, s, at))
      && (s.phase == Open ==> After(cfg, log + [Request(at)] + [Response(at, false)]).phase == Closed)
      && (s.phase == HalfOpen ==> After(cfg, log + [Response(now, false)]).phase == Closed)
  {
    var at := ReadyAt(cfg, After(cfg, log), now);
    AfterStep(cfg, log, Request(at));
    AfterStep(cfg, log + [Request(at)], Response(at, false));
    AfterStep(cfg, log, Response(now, false));
  }

  /** What a refused request is told to wait. */
  function RetryAfter(cfg: Config, s: State, now: real): real {
    Max(0.0, s.openedAt + cfg.cooldown as real - now)
  }

  /** The `retry_after` of an open breaker is exact: refused requests in the meantime do not
      move it, and the next request is admitted iff it waits that long. */
  lemma {:induction false} OpenRetryExact(cfg: Config, log: seq<Event>, n: nat, wait: real)
    requires n < |log| && After(cfg, log[..n]).phase == Open
    requires forall k :: n <= k < |log| ==> log[k].Request? && !Admitted(cfg, log, k)
    requires wait >= 0.0
    ensures After(cfg, log) == After(cfg, log[..n])
    ensures Admits(cfg, After(cfg, log), log[n].at + wait)
       <==> wait >= RetryAfter(cfg, After(cfg, log[..n]), log[n].at)
    decreases |log|
  {
    hide After, Next, OnResponse, OnAttack;
    assert !Admitted(cfg, log, n);
    var past, e := log[..|log| - 1], log[|log| - 1];
    assert past + [e] == log;
    AfterStep(cfg, past, e);
    assert !Admitted(cfg, log, |log| - 1);
    if n < |past| {
      assert past[..n] == log[..n];
      forall k | n <= k < |past|
        ensures past[k].Request? && !Admitted(cfg, past, k)
      {
        assert !Admitted(cfg, log, k) && past[..k] == log[..k] && past[k] == log[k];
      }
      OpenRetryExact(cfg, past, n, wait);
    } else {
      assert past == log[..n];
    }
  }

  /** A whole history inside the window, with its errors. */
  lemma {:induction false} AllRecent(calls: seq<Stamped<bool>>, cutoff: real)
    requires forall i :: 0 <= i < |calls| ==> calls[i].at >= cutoff
    ensures Since(calls, cutoff) == calls
  {
    if calls != [] {
      AllRecent(calls[..|calls| - 1], cutoff);
    }
  }

  lemma OneErrorOfThree(first: real, second: real, third: real)
    ensures
      && Errors([Stamped(first, true)]) == 1
      && Errors([Stamped(first, true), Stamped(second, false), Stamped(third, false)]) == 1
  {
    var a, b, c := Stamped(first, true), Stamped(second, false), Stamped(third, false);
    assert [a, b, c][..2] == [a, b] && [a, b][..1] == [a] && [a][..0] == [];
  }

  lemma OneErrorOpens(cfg: Config)
    requires cfg.window >= 0 && cfg.minSamples <= 1 && cfg.threshold <= 1.0
    ensures After(cfg, [Response(0.0, true)]) == State(Open, 0.0, 0)
  {
    hide Errors, Since, After, Responses;
    var e := Response(0.0, true);
    assert [e] == [] + [e];
    AfterEmpty(cfg);
    AfterStep(cfg, [], e);
    ResponsesStep([], e);
    AllRecent([Stamped(0.0, true)], 0.0 - cfg.window as real);
    OneErrorOfThree(0.0, 0.0, 0.0);
    assert Responses([] + [e]) == [Stamped(0.0, true)];
  }

  lemma AfterEmpty(cfg: Config)
    ensures After(cfg, []) == INITIAL && Responses([]) == []
  {
  }

  lemma ProbeCloses(cfg: Config)
    requires cfg.window >= 0 && cfg.minSamples <= 1 && cfg.threshold <= 1.0 && cfg.cooldown == 30
    ensures After(cfg, [Response(0.0, true), Request(30.0), Response(30.0, false)]) == State(Closed, 0.0, 0)
  {
    hide Errors, Since, After, Responses;
    var e0, e1, e2 := Response(0.0, true), Request(30.0), Response(30.0, false);
    assert [e0, e1] == [e0] + [e1] && [e0, e1, e2] == [e0, e1] + [e2];
    OneErrorOpens(cfg);
    AfterStep(cfg, [e0], e1);
    AfterStep(cfg, [e0, e1], e2);
  }

  /** Closing does not clear the window: with one error and two successes in it, the
      second of them, the response after the probe's, opens the breaker again. */
  lemma SuccessCanReopen(cfg: Config)
    requires cfg.window >= 60 && cfg.minSamples <= 1 && cfg.threshold == 0.25 && cfg.cooldown == 30
    ensures After(cfg, [Response(0.0, true), Request(30.0), Response(30.0, false)]).phase == Closed
    ensures After(cfg, [Response(0.0, true), Request(30.0), Response(30.0, false)] + [Response(60.0, false)]).phase
         == Open
  {
    hide Errors, Since, After, Responses;
    ProbeCloses(cfg);
    OneErrorOfThree(0.0, 30.0, 60.0);
    AfterStep(cfg, [Response(0.0, true), Request(30.0), Response(30.0, false)], Response(60.0, false));
    ResponsesOfThree(Response(0.0, true), Request(30.0), Response(30.0, false), Response(60.0, false));
    AllRecent([Stamped(0.0, true), Stamped(30.0, false), Stamped(60.0, false)], 60.0 - cfg.window as real);
  }

  lemma ResponsesOfThree(a: Event, b: Event, c: Event, d: Event)
    requires a.Response? && b.Request? && c.Response? && d.Response?
    ensures Responses([a, b, c] + [d]) == [Stamped(a.at, a.error), Stamped(c.at, c.error), Stamped(d.at, d.error)]
  {
    assert [a, b, c] == [a, b] + [c] && [a, b] == [a] + [b] && [a] == [] + [a];
    ResponsesStep([], a);
    ResponsesStep([a], b);
    ResponsesStep([a, b], c);
    ResponsesStep([a, b, c], d);
  }
}
