/** Per-detector alert cooldown (alerts.py). */
module Alerts {
  import opened Common

  /** `webhook` says whether a webhook address is set; `alertOn` lists the detectors that alert. */
  datatype Config = Config(enabled: bool, webhook: bool, cooldown: int, alertOn: set<string>)

  /** An event with findings of some alerting detectors, at its time. */
  datatype Firing = Firing(at: real, kinds: set<string>)

  ghost predicate InOrder(log: seq<Firing>) {
    Ordered(log, (f: Firing) => f.at)
  }

  /** An alert of this kind goes out for `f` after the events `past`. */
  predicate SendsAfter(cfg: Config, past: seq<Firing>, f: Firing, kind: string)
    decreases |past|, 1
  {
    kind in f.kinds && f.at - LastSent(cfg, past, kind) >= cfg.cooldown as real
  }

  /** Time of the last alert of this kind; zero when there was none. */
  function LastSent(cfg: Config, log: seq<Firing>, kind: string): real
    decreases |log|, 0
  {
    if log == [] then 0.0
    else
      var past, f := log[..|log| - 1], log[|log| - 1];
      if SendsAfter(cfg, past, f, kind) then f.at else LastSent(cfg, past, kind)
  }

  predicate Sends(cfg: Config, log: seq<Firing>, n: nat, kind: string)
    requires n < |log|
  {
    SendsAfter(cfg, log[..n], log[n], kind)
  }

  /** The last alert is a sent one that no other follows, if there was any. */
  lemma {:induction false} LastSentIs(cfg: Config, log: seq<Firing>, n: nat, kind: string) returns (ever: bool, i: nat)
    requires n <= |log|
    ensures ever ==>
      i < n && Sends(cfg, log, i, kind) && LastSent(cfg, log[..n], kind) == log[i].at
      && forall k :: i < k < n ==> !Sends(cfg, log, k, kind)
    ensures !ever ==> LastSent(cfg, log[..n], kind) == 0.0 && forall k :: 0 <= k < n ==> !Sends(cfg, log, k, kind)
  {
    ever, i := false, 0;
    if n > 0 {
      assert log[..n][..n - 1] == log[..n - 1];
      if Sends(cfg, log, n - 1, kind) {
        ever, i := true, n - 1;
      } else {
        ever, i := LastSentIs(cfg, log, n - 1, kind);
      }
    }
  }

  /** Two alerts of one kind are at least a cooldown apart. */
  lemma SendsSpaced(cfg: Config, log: seq<Firing>, i: nat, j: nat, kind: string)
    requires i < j < |log| && InOrder(log) && Sends(cfg, log, i, kind) && Sends(cfg, log, j, kind)
    ensures log[j].at - log[i].at >= cfg.cooldown as real
  {
    hide LastSent;
    var ever, last := LastSentIs(cfg, log, j, kind);
    assert i <= last;
  }

  /** A relevant event is suppressed iff an alert of that kind went out less than a cooldown
      ago, or none ever did and the clock itself has not yet passed one cooldown. */
  lemma SuppressedIff(cfg: Config, log: seq<Firing>, n: nat, kind: string)
    requires n < |log| && InOrder(log) && kind in log[n].kinds
    ensures !Sends(cfg, log, n, kind) <==>
      || (exists i :: 0 <= i < n && Sends(cfg, log, i, kind) && log[n].at - log[i].at < cfg.cooldown as real)
      || (log[n].at < cfg.cooldown as real && forall i :: 0 <= i < n ==> !Sends(cfg, log, i, kind))
  {
    hide LastSent;
    var ever, last := LastSentIs(cfg, log, n, kind);
    if ever {
      assert Sends(cfg, log, last, kind);
      forall i | 0 <= i < n && Sends(cfg, log, i, kind)
        ensures log[i].at <= log[last].at
      {
        assert i <= last;
      }
    }
  }

  /** The events `from <= k < to` for which an alert of this kind went out. */
  function SentIn(cfg: Config, log: seq<Firing>, from: nat, to: nat, kind: string): (r: seq<nat>)
    requires from <= to <= |log|
    ensures forall x :: 0 <= x < |r| ==> from <= r[x] < to && Sends(cfg, log, r[x], kind)
    ensures forall x, y :: 0 <= x < y < |r| ==> r[x] < r[y]
  {
    Where((k: nat) => k < |log| && Sends(cfg, log, k, kind), from, to)
  }

  /** At most 1 + floor(L / cooldown) alerts of a kind in any interval of length L. */
  lemma SendRate(cfg: Config, log: seq<Firing>, from: nat, to: nat, kind: string, length: real)
    requires from < to <= |log| && InOrder(log)
    requires cfg.cooldown > 0 && log[to - 1].at - log[from].at <= length
    ensures |SentIn(cfg, log, from, to, kind)| <= 1 + (length / cfg.cooldown as real).Floor
  {
    hide Sends;
    var sent := SentIn(cfg, log, from, to, kind);
    var times := seq(|sent|, x requires 0 <= x < |sent| => log[sent[x]].at);
    forall x, y | 0 <= x < y < |times|
      ensures times[y] - times[x] >= cfg.cooldown as real
    {
      SendsSpaced(cfg, log, sent[x], sent[y], kind);
    }
    SpacedCount(times, cfg.cooldown as real, length);
  }

  // ---------------------------------------------------------------- the class

  /** The log after one more event with findings of the detectors `fired`. */
  function LogAfter(cfg: Config, log: seq<Firing>, fired: set<string>, now: real): seq<Firing> {
    var relevant := fired * cfg.alertOn;
    if !cfg.enabled || !cfg.webhook || relevant == {} then log else log + [Firing(now, relevant)]
  }

  /** An event joins the log iff alerts are on and some detector with findings alerts; it then
      holds the time and just those detectors. */
  lemma LoggedIff(cfg: Config, log: seq<Firing>, fired: set<string>, now: real)
    ensures var after := LogAfter(cfg, log, fired, now);
      if cfg.enabled && cfg.webhook && exists kind :: kind in fired && kind in cfg.alertOn
      then
        && |after| == |log| + 1 && after[..|log|] == log && after[|log|].at == now
        && forall kind :: kind in after[|log|].kinds <==> kind in fired && kind in cfg.alertOn
      else after == log
  {
    assert forall kind :: kind in fired * cfg.alertOn <==> kind in fired && kind in cfg.alertOn;
  }

  class AlertSender {
    const cfg: Config
    var lastSent: map<string, real>
    /** Every event that had something to alert on. */
    ghost var log: seq<Firing>

    function Last(kind: string): real
      reads this`lastSent
    {
      if kind in lastSent then lastSent[kind] else 0.0
    }

    ghost predicate Valid()
      reads this
    {
      forall kind :: Last(kind) == LastSent(cfg, log, kind)
    }

    constructor (cfg: Config)
      ensures Valid() && this.cfg == cfg && log == []
    {
      this.cfg, lastSent, log := cfg, map[], [];
    }

    /** Decides which alerts go out; the order in which the kinds are taken is arbitrary and
        does not show in the outcome. */
    method MaybeSend(fired: set<string>, now: real) returns (sent: set<string>)
      requires Valid()
      modifies this
      ensures Valid()
      ensures log == LogAfter(cfg, old(log), fired, now)
      ensures var relevant := fired * cfg.alertOn;
        sent == if !cfg.enabled || !cfg.webhook then {}
                else set kind | kind in relevant && SendsAfter(cfg, old(log), Firing(now, relevant), kind)
    {
      hide LastSent;
      sent := {};
      if !cfg.enabled || !cfg.webhook {
        return;
      }
      var relevant := fired * cfg.alertOn;
      if relevant == {} {
        return;
      }
      ghost var f := Firing(now, relevant);
      var todo := relevant;
      while todo != {}
        invariant todo <= relevant && log == old(log)
        invariant sent == set kind | kind in relevant - todo && SendsAfter(cfg, log, f, kind)
        invariant forall kind :: Last(kind) == if kind in sent then now else LastSent(cfg, log, kind)
        decreases todo
      {
        var kind :| kind in todo;
        todo := todo - {kind};
        var last := Last(kind);
        if now - last >= cfg.cooldown as real {
          lastSent := lastSent[kind := now];
          sent := sent + {kind};
        }
      }
      forall kind
        ensures LastSent(cfg, log + [f], kind) == if kind in sent then now else LastSent(cfg, log, kind)
      {
        LastSentStep(cfg, log, f, kind);
      }
      log := log + [f];
    }
  }

  lemma LastSentStep(cfg: Config, log: seq<Firing>, f: Firing, kind: string)
    ensures LastSent(cfg, log + [f], kind)
         == if SendsAfter(cfg, log, f, kind) then f.at else LastSent(cfg, log, kind)
  {
    assert (log + [f])[..|log|] == log;
  }
}
