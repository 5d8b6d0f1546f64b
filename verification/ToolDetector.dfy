/** Tool-call detector (detectors/tool.py): the enumeration window and the argument rules. */
module ToolDetector {
  import opened Common
  import opened Histories
  import opened SlidingWindow

  /** `shell` and `ssrf` stand for "some pattern of the list matches". */
  datatype Config = Config(
    enabled: bool,
    rules: set<string>,
    width: int,
    threshold: int,
    maxArgBytes: int,
    shell: string -> bool,
    ssrf: string -> bool)

  /** A tool call on a thread, at its time. */
  type Scan = Keyed<Stamped<string>>

  ghost predicate InOrder(log: seq<Scan>) {
    Ordered(log, (e: Scan) => e.item.at)
  }

  function Tools(window: seq<Stamped<string>>): set<string> {
    set s | s in window :: s.item
  }

  /** The tools that a thread's full history shows inside the window that ends at `now`. */
  function ToolsSince(cfg: Config, h: seq<Stamped<string>>, now: real): set<string> {
    Tools(Since(h, now - cfg.width as real))
  }

  /** The enumeration rule fires at scan number `n`. */
  predicate Fires(cfg: Config, log: seq<Scan>, n: nat)
    requires n < |log|
  {
    |ToolsSince(cfg, On(log[..n + 1], log[n].key), log[n].item.at)| >= cfg.threshold
  }

  lemma {:induction false} InSince(h: seq<Stamped<string>>, cutoff: real, s: Stamped<string>)
    ensures s in Since(h, cutoff) <==> s in h && s.at >= cutoff
  {
    if h != [] {
      InSince(h[..|h| - 1], cutoff, s);
      assert h == h[..|h| - 1] + [h[|h| - 1]];
    }
  }

  /** The calls of a thread up to number `n` that are not older than the window, and their tools. */
  function ToolsCalled(cfg: Config, log: seq<Scan>, n: nat): set<string>
    requires n < |log|
  {
    set k: nat | k <= n && log[k].key == log[n].key && log[k].item.at >= log[n].item.at - cfg.width as real
      :: log[k].item.item
  }

  /** The rule fires iff these are as many different tools as the threshold says. */
  lemma FiresIff(cfg: Config, log: seq<Scan>, n: nat)
    requires n < |log|
    ensures Fires(cfg, log, n) <==> |ToolsCalled(cfg, log, n)| >= cfg.threshold
  {
    hide On, Since;
    var key, cutoff := log[n].key, log[n].item.at - cfg.width as real;
    var h := On(log[..n + 1], key);
    forall tool
      ensures tool in Tools(Since(h, cutoff)) <==> tool in ToolsCalled(cfg, log, n)
    {
      if tool in Tools(Since(h, cutoff)) {
        var s :| s in Since(h, cutoff) && s.item == tool;
        InSince(h, cutoff, s);
        InOn(log[..n + 1], key, s);
        var k :| 0 <= k < n + 1 && log[..n + 1][k] == Keyed(key, s);
        assert log[k] == Keyed(key, s);
      }
      if tool in ToolsCalled(cfg, log, n) {
        var k: nat :| k <= n && log[k].key == key && log[k].item.at >= cutoff && log[k].item.item == tool;
        assert log[..n + 1][k] == Keyed(key, log[k].item);
        InOn(log[..n + 1], key, log[k].item);
        InSince(h, cutoff, log[k].item);
      }
    }
    assert Tools(Since(h, cutoff)) == ToolsCalled(cfg, log, n);
  }

  /** In one thread's history, an earlier call of a tool does not matter once the tool has
      been called again. */
  lemma EarlierCallInvisible(cfg: Config, a: seq<Stamped<string>>, e: Stamped<string>, b: seq<Stamped<string>>,
                             now: real)
    requires exists again :: again in b && again.item == e.item && e.at <= again.at
    ensures ToolsSince(cfg, a + [e] + b, now) == ToolsSince(cfg, a + b, now)
  {
    var cutoff := now - cfg.width as real;
    var again :| again in b && again.item == e.item && e.at <= again.at;
    forall s
      ensures s in Since(a + [e] + b, cutoff) <==> s in a + [e] + b && s.at >= cutoff
      ensures s in Since(a + b, cutoff) <==> s in a + b && s.at >= cutoff
    {
      InSince(a + [e] + b, cutoff, s);
      InSince(a + b, cutoff, s);
    }
    assert again in a + b;
  }

  /** Scanning a call twice changes no verdict: the first scan may be deleted without any
      effect on the verdict of the second one or of any scan after it, on any thread. */
  lemma SecondScanSuffices(cfg: Config, log: seq<Scan>, i: nat, j: nat, n: nat)
    requires i < j <= n < |log| && InOrder(log)
    requires log[i].key == log[j].key && log[i].item.item == log[j].item.item
    ensures Fires(cfg, log, n) <==> Fires(cfg, Without(log, i), n - 1)
  {
    hide On, ToolsSince;
    var key := log[n].key;
    if log[i].key == key {
      OnWithout(log, i, n + 1, key);
      Occurs(log, i + 1, j, n + 1);
      EarlierCallInvisible(cfg, On(log[..i], key), log[i].item, On(log[i + 1..n + 1], key), log[n].item.at);
    } else {
      OtherKeysInvisible(log, i, n + 1, key);
    }
    assert Without(log, i)[n - 1] == log[n];
  }

  lemma Occurs(log: seq<Scan>, from: nat, j: nat, to: nat)
    requires from <= j < to <= |log|
    ensures log[j].item in On(log[from..to], log[j].key)
  {
    hide On;
    var key := log[j].key;
    assert log[from..to] == log[from..j] + [log[j]] + log[j + 1..to];
    OnAppend(log[from..j] + [log[j]], log[j + 1..to], key);
    OnLast(log[from..j], log[j], key);
  }

  /** An immediate second scan of the same call at the same instant gives the same verdict. */
  lemma RescanAgrees(cfg: Config, log: seq<Scan>, i: nat)
    requires i + 1 < |log| && InOrder(log) && log[i] == log[i + 1]
    ensures Fires(cfg, log, i) <==> Fires(cfg, log, i + 1)
  {
    SecondScanSuffices(cfg, log, i, i + 1, i + 1);
    assert Without(log, i)[..i + 1] == log[..i + 1];
  }

  /** Scans of other threads are irrelevant. */
  lemma OtherThreadsIrrelevant(cfg: Config, log: seq<Scan>, i: nat, n: nat)
    requires i < n < |log| && log[i].key != log[n].key
    ensures Fires(cfg, log, n) <==> Fires(cfg, Without(log, i), n - 1)
  {
    OtherKeysInvisible(log, i, n + 1, log[n].key);
    assert Without(log, i)[n - 1] == log[n];
  }

  // ---------------------------------------------------------------- the class

  /** All findings on one call, given whether the enumeration rule fires. */
  function Findings(cfg: Config, tool: string, args: string, allowed: Option<seq<string>>, enumerates: bool)
    : seq<Detection>
  {
    When("out_of_allowlist" in cfg.rules && allowed.Some? && tool !in allowed.value, "tool", "out_of_allowlist", High)
    + When(enumerates, "tool", "enumeration", Medium)
    + ArgumentFindings(cfg, args)
  }

  /** The findings that do not depend on any history. */
  function ArgumentFindings(cfg: Config, args: string): seq<Detection> {
    When("oversized_args" in cfg.rules && |args| > cfg.maxArgBytes, "tool", "oversized_args", Low)
    + When("shell_metachar" in cfg.rules && cfg.shell(args), "tool", "shell_metachar", High)
    + When("ssrf_pattern" in cfg.rules && cfg.ssrf(args), "tool", "ssrf_pattern", High)
  }

  /** A thread whose calls are tracked. */
  predicate Tracks(cfg: Config, thread: Option<string>) {
    cfg.enabled && "enumeration" in cfg.rules && thread.Some? && thread.value != ""
  }

  /** The log after one more scan. */
  function Logged(cfg: Config, log: seq<Scan>, tool: string, thread: Option<string>, now: real): seq<Scan> {
    if Tracks(cfg, thread) then log + [Keyed(thread.value, Stamped(now, tool))] else log
  }

  lemma LoggedNotAfter(cfg: Config, log: seq<Scan>, tool: string, thread: Option<string>, now: real)
    requires log != [] ==> log[|log| - 1].item.at <= now
    ensures var after := Logged(cfg, log, tool, thread, now);
      after != [] ==> after[|after| - 1].item.at <= now
  {
  }

  /** What one more scan reports. */
  function Report(cfg: Config, log: seq<Scan>, tool: string, args: string, allowed: Option<seq<string>>,
                  thread: Option<string>, now: real): seq<Detection>
  {
    if !cfg.enabled then []
    else
      var after := Logged(cfg, log, tool, thread, now);
      Findings(cfg, tool, args, allowed, Tracks(cfg, thread) && Fires(cfg, after, |after| - 1))
  }

  lemma InWhen(condition: bool, rule: string, severity: Severity, d: Detection)
    ensures d in When(condition, "tool", rule, severity) <==> condition && d == Detection("tool", rule, severity)
  {
  }

  lemma InFindings(cfg: Config, tool: string, args: string, allowed: Option<seq<string>>, enumerates: bool,
                   d: Detection)
    ensures d in Findings(cfg, tool, args, allowed, enumerates)
       <==> || ("out_of_allowlist" in cfg.rules && allowed.Some? && tool !in allowed.value
                && d == Detection("tool", "out_of_allowlist", High))
            || (enumerates && d == Detection("tool", "enumeration", Medium))
            || ("oversized_args" in cfg.rules && |args| > cfg.maxArgBytes
                && d == Detection("tool", "oversized_args", Low))
            || ("shell_metachar" in cfg.rules && cfg.shell(args) && d == Detection("tool", "shell_metachar", High))
            || ("ssrf_pattern" in cfg.rules && cfg.ssrf(args) && d == Detection("tool", "ssrf_pattern", High))
  {
    InWhen("out_of_allowlist" in cfg.rules && allowed.Some? && tool !in allowed.value, "out_of_allowlist", High, d);
    InWhen(enumerates, "enumeration", Medium, d);
    InWhen("oversized_args" in cfg.rules && |args| > cfg.maxArgBytes, "oversized_args", Low, d);
    InWhen("shell_metachar" in cfg.rules && cfg.shell(args), "shell_metachar", High, d);
    InWhen("ssrf_pattern" in cfg.rules && cfg.ssrf(args), "ssrf_pattern", High, d);
    hide When;
  }

  /** Every finding that a scan can report, and exactly when it does. */
  lemma RulesReported(cfg: Config, log: seq<Scan>, tool: string, args: string, allowed: Option<seq<string>>,
                      thread: Option<string>, now: real, d: Detection)
    ensures d in Report(cfg, log, tool, args, allowed, thread, now)
       <==> cfg.enabled && d.detector == "tool" && d.rule in cfg.rules
            && match d.rule
               case "out_of_allowlist" => d.severity == High && allowed.Some? && tool !in allowed.value
               case "enumeration" =>
                 d.severity == Medium && thread.Some? && thread.value != ""
                 && var all := log + [Keyed(thread.value, Stamped(now, tool))];
                    |ToolsCalled(cfg, all, |log|)| >= cfg.threshold
               case "oversized_args" => d.severity == Low && |args| > cfg.maxArgBytes
               case "shell_metachar" => d.severity == High && cfg.shell(args)
               case "ssrf_pattern" => d.severity == High && cfg.ssrf(args)
               case _ => false
  {
    hide Fires, ToolsCalled, Findings;
    var after := Logged(cfg, log, tool, thread, now);
    if Tracks(cfg, thread) {
      FiresIff(cfg, after, |log|);
    }
    InFindings(cfg, tool, args, allowed, Tracks(cfg, thread) && Fires(cfg, after, |after| - 1), d);
  }

  class ToolDetector {
    const cfg: Config
    var windows: map<string, seq<Stamped<string>>>
    /** Every call that reached the enumeration rule. */
    ghost var log: seq<Scan>

    function WindowOf(thread: string): seq<Stamped<string>>
      reads this`windows
    {
      if thread in windows then windows[thread] else []
    }

    ghost predicate Valid()
      reads this
    {
      InOrder(log) && forall thread :: WindowOf(thread) == Window(On(log, thread), cfg.width)
    }

    ghost predicate NotBefore(now: real)
      reads this
    {
      log != [] ==> log[|log| - 1].item.at <= now
    }

    constructor (cfg: Config)
      ensures Valid() && this.cfg == cfg && log == []
    {
      this.cfg, windows, log := cfg, map[], [];
    }

    method Scan(tool: string, args: string, allowed: Option<seq<string>>, thread: Option<string>, now: real)
      returns (out: seq<Detection>)
      requires Valid() && NotBefore(now)
      modifies this
      ensures Valid()
      ensures log == Logged(cfg, old(log), tool, thread, now)
      ensures out == Report(cfg, old(log), tool, args, allowed, thread, now)
    {
      hide Fires, Window, On, InOrder, ArgumentFindings;
      out := [];
      if !cfg.enabled {
        return;
      }
      if "out_of_allowlist" in cfg.rules && allowed.Some? && tool !in allowed.value {
        out := out + [Detection("tool", "out_of_allowlist", High)];
      }
      var enumerates := false;
      if Tracks(cfg, thread) {
        enumerates := Enumerate(thread.value, tool, now);
        if enumerates {
          out := out + [Detection("tool", "enumeration", Medium)];
        }
      }
      assert out == When("out_of_allowlist" in cfg.rules && allowed.Some? && tool !in allowed.value,
                         "tool", "out_of_allowlist", High)
                    + When(enumerates, "tool", "enumeration", Medium);
      var more := ScanArguments(args);
      out := out + more;
    }

    method ScanArguments(args: string) returns (out: seq<Detection>)
      ensures out == ArgumentFindings(cfg, args)
    {
      out := [];
      if "oversized_args" in cfg.rules && |args| > cfg.maxArgBytes {
        out := out + [Detection("tool", "oversized_args", Low)];
      }
      if "shell_metachar" in cfg.rules && cfg.shell(args) {
        out := out + [Detection("tool", "shell_metachar", High)];
      }
      if "ssrf_pattern" in cfg.rules && cfg.ssrf(args) {
        out := out + [Detection("tool", "ssrf_pattern", High)];
      }
    }

    /** Appends to the thread's window, prunes it and counts its distinct tools. */
    method Enumerate(thread: string, tool: string, now: real) returns (fires: bool)
      requires Valid() && NotBefore(now)
      modifies this
      ensures Valid() && log == old(log) + [Keyed(thread, Stamped(now, tool))]
      ensures fires == Fires(cfg, log, |log| - 1)
      ensures fires <==>
        |set k: nat | k < |log| && log[k].key == thread && log[k].item.at >= now - cfg.width as real
           :: log[k].item.item| >= cfg.threshold
    {
      hide Window, Since, Ascending, InOrder, On;
      ghost var e := Keyed(thread, Stamped(now, tool));
      InOrderStep(log, e);
      ThreadAscends(log + [e], thread);
      OnLast(log, e, thread);
      var window := Push(On(log, thread), WindowOf(thread), Stamped(now, tool), cfg.width);
      forall other | other != thread
        ensures On(log + [e], other) == On(log, other)
      {
        OnLast(log, e, other);
      }
      windows := windows[thread := window];
      log := log + [e];
      WindowIsSince(On(old(log), thread), Stamped(now, tool), cfg.width);
      assert log[..|log|] == log;
      FiresIff(cfg, log, |log| - 1);
      assert ToolsCalled(cfg, log, |log| - 1)
          == set k: nat | k < |log| && log[k].key == thread && log[k].item.at >= now - cfg.width as real
               :: log[k].item.item;
      var distinct := set s | s in window :: s.item;
      return |distinct| >= cfg.threshold;
    }
  }

  lemma WindowIsSince(h: seq<Stamped<string>>, e: Stamped<string>, width: int)
    ensures Window(h + [e], width) == Since(h + [e], e.at - width as real)
  {
  }

  lemma InOrderStep(log: seq<Scan>, e: Scan)
    requires InOrder(log) && (log != [] ==> log[|log| - 1].item.at <= e.item.at)
    ensures InOrder(log + [e])
  {
  }

  lemma {:induction false} ThreadAscends(log: seq<Scan>, thread: string)
    requires InOrder(log)
    ensures Ascending(On(log, thread))
    ensures On(log, thread) != [] ==> On(log, thread)[|On(log, thread)| - 1].at <= log[|log| - 1].item.at
  {
    if log != [] {
      var past, e := log[..|log| - 1], log[|log| - 1];
      ThreadAscends(past, thread);
      if e.key == thread {
        AscendAppend(On(past, thread), e.item);
      }
    }
  }
}
