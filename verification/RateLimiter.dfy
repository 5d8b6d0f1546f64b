/** Token-bucket rate limiter (interventions/rate_limiter.py).

    The specification is a function of the complete log of calls; the class keeps one lazily
    refilled bucket per key and is proved to answer exactly as that function does. */
module RateLimiter {
  import opened Common
  import opened Decisions
  import opened Histories
  import opened TokenBucket
  import opened BucketKeys

  /** One evaluation as the limiter sees it, on the bucket of its key. */
  type Call = Keyed<Request>

  /** The limiter's answer to call number `n` of the log. */
  predicate Granted(cfg: Config, log: seq<Call>, n: nat)
    requires n < |log|
  {
    Admits(cfg, On(log[..n], log[n].key), log[n].item)
  }

  ghost predicate InOrder(log: seq<Call>) {
    Ordered(log, (c: Call) => c.item.time)
  }

  lemma {:induction false} OnInOrder(log: seq<Call>, key: string)
    requires InOrder(log)
    ensures Chronological(On(log, key))
    ensures On(log, key) != [] ==> On(log, key)[|On(log, key)| - 1].time <= log[|log| - 1].item.time
  {
    if log != [] {
      OnInOrder(log[..|log| - 1], key);
    }
  }

  /** Transparency over whole logs: deleting a denied call, even one that created its
      bucket, leaves the answer to every later call on any key as it was. */
  lemma DeniedCallsLeaveNoTrace(cfg: Config, log: seq<Call>, i: nat, n: nat)
    requires cfg.refill >= 0.0 && InOrder(log)
    requires i < n < |log| && !Granted(cfg, log, i)
    ensures Granted(cfg, log, n) <==> Granted(cfg, Without(log, i), n - 1)
  {
    var key := log[n].key;
    OnWithout(log, i, n, key);
    if log[i].key == key {
      var h, k := On(log[..n], key), |On(log[..i], key)|;
      assert h[..k] == On(log[..i], key) && h[k] == log[i].item && h[..|h|] == h;
      assert Without(h, k) == On(Without(log, i)[..n - 1], key);
      OnInOrder(log[..n], key);
      DeletionKeepsTokens(cfg, h, k, |h|, log[n].item.time);
    } else {
      OtherKeysInvisible(log, i, n, key);
    }
  }

  /** Calls on other keys are irrelevant: they may be inserted or deleted at will. */
  lemma OtherKeysIrrelevant(cfg: Config, log: seq<Call>, i: nat, n: nat)
    requires i < n < |log| && log[i].key != log[n].key
    ensures Granted(cfg, log, n) <==> Granted(cfg, Without(log, i), n - 1)
  {
    OtherKeysInvisible(log, i, n, log[n].key);
  }

  /** Every call costs what the limiter can charge. */
  ghost predicate Charged(log: seq<Call>) {
    forall k :: 0 <= k < |log| ==> IsCharge(log[k].item.cost)
  }

  /** With a negative refill rate, which the configuration does not exclude, a denied
      first call pins the bucket's clock and a later call is denied because of it. */
  lemma NegativeRefillLeavesTrace(cfg: Config) returns (log: seq<Call>)
    requires cfg.refill < 0.0 && cfg.capacity >= 1.0
    ensures |log| == 2 && InOrder(log) && !Granted(cfg, log, 0)
    ensures Charged(log)
    ensures !Granted(cfg, log, 1) && Granted(cfg, Without(log, 0), 0)
  {
    hide TokensAt, Admits, IsCharge, InOrder, On, Without;
    QuotientPositive(cfg.capacity, -cfg.refill);
    NextCharge(cfg.capacity);
    var first, second :=
      Request(0.0, (cfg.capacity.Floor + 2) as real), Request(cfg.capacity / -cfg.refill, 1.0);
    PinnedBucket(cfg, first, second);
    log := [Keyed("", first), Keyed("", second)];
    TwoCalls(first, second);
  }

  lemma TwoCalls(first: Request, second: Request)
    requires first.time <= second.time
    ensures var log := [Keyed("", first), Keyed("", second)];
      && InOrder(log) && On(log[..0], "") == [] && On(log[..1], "") == [first]
      && Without(log, 0) == [Keyed("", second)] && On(Without(log, 0)[..0], "") == []
  {
    var log := [Keyed("", first), Keyed("", second)];
    OnLast([], log[0], "");
    assert log[..1] == [] + [log[0]] && log[..0] == [];
  }

  /** A charge above any capacity, and the smallest one. */
  lemma NextCharge(capacity: real)
    requires capacity >= 1.0
    ensures IsCharge((capacity.Floor + 2) as real) && (capacity.Floor + 2) as real > capacity
    ensures IsCharge(1.0)
  {
    assert (capacity.Floor + 2) as real == capacity.Floor as real + 2.0;
  }

  lemma PinnedBucket(cfg: Config, first: Request, second: Request)
    requires cfg.refill < 0.0 && cfg.capacity >= 1.0 && first.time == 0.0 && first.cost > cfg.capacity
    requires second.time == cfg.capacity / -cfg.refill && second.cost == 1.0
    ensures !Admits(cfg, [], first) && !Admits(cfg, [first], second) && Admits(cfg, [], second)
  {
    var span := second.time;
    assert Gain(cfg, 0.0, span) == -cfg.capacity by { assert span * -cfg.refill == cfg.capacity; }
    assert [first][..0] == [];
    assert BucketAfter(cfg, [first]) == Some(Level(cfg.capacity, 0.0));
    assert TokensAt(cfg, [first], span) == 0.0;
  }

  predicate NoTraceAt(cfg: Config, log: seq<Call>, i: nat, n: nat)
    requires i < n < |log|
  {
    !Granted(cfg, log, i) ==> (Granted(cfg, log, n) <==> Granted(cfg, Without(log, i), n - 1))
  }

  /** No denied call of any log leaves a trace. */
  ghost predicate LeavesNoTrace(cfg: Config) {
    forall log, i: nat, n: nat :: InOrder(log) && Charged(log) && i < n < |log| ==> NoTraceAt(cfg, log, i, n)
  }

  /** The exact condition on the configuration. */
  lemma NoTraceIff(cfg: Config)
    ensures LeavesNoTrace(cfg) <==> cfg.refill >= 0.0 || cfg.capacity < 1.0
  {
    hide Granted, InOrder;
    if cfg.refill >= 0.0 || cfg.capacity < 1.0 {
      forall log, i: nat, n: nat | InOrder(log) && Charged(log) && i < n < |log|
        ensures NoTraceAt(cfg, log, i, n)
      {
        if cfg.refill < 0.0 {
          NothingGranted(cfg, log, n);
          assert Without(log, i)[n - 1] == log[n];
          NothingGranted(cfg, Without(log, i), n - 1);
        } else if !Granted(cfg, log, i) {
          DeniedCallsLeaveNoTrace(cfg, log, i, n);
        }
      }
    } else {
      var log := NegativeRefillLeavesTrace(cfg);
      assert !NoTraceAt(cfg, log, 0, 1);
    }
  }

  lemma NothingGranted(cfg: Config, log: seq<Call>, n: nat)
    requires n < |log| && cfg.capacity < log[n].item.cost
    ensures !Granted(cfg, log, n)
  {
  }

  // ------------------------------------------------------- the ledger of a log

  /** The calls of a log that were granted. */
  function GrantedCalls(cfg: Config, log: seq<Call>): seq<Call> {
    if log == [] then []
    else
      GrantedCalls(cfg, log[..|log| - 1])
      + if Granted(cfg, log, |log| - 1) then [log[|log| - 1]] else []
  }

  /** What the calls of a ledger cost on one key between two times. */
  function Spend(ledger: seq<Call>, key: string, a: real, b: real): real {
    if ledger == [] then 0.0
    else
      var c := ledger[|ledger| - 1];
      Spend(ledger[..|ledger| - 1], key, a, b)
      + if c.key == key && a <= c.item.time <= b then c.item.cost else 0.0
  }

  lemma SpendStep(ledger: seq<Call>, c: Call, key: string, a: real, b: real)
    ensures Spend(ledger + [c], key, a, b)
         == Spend(ledger, key, a, b) + if c.key == key && a <= c.item.time <= b then c.item.cost else 0.0
  {
    assert (ledger + [c])[..|ledger|] == ledger;
  }

  lemma {:induction false} WithinPrefix(cfg: Config, h: seq<Request>, r: Request, n: nat, a: real, b: real)
    requires n <= |h|
    ensures AdmittedWithin(cfg, h + [r], n, a, b) == AdmittedWithin(cfg, h, n, a, b)
  {
    hide Admits;
    if n > 0 {
      WithinPrefix(cfg, h, r, n - 1, a, b);
      assert (h + [r])[..n - 1] == h[..n - 1];
    }
  }

  lemma {:induction false} SpendIsAdmitted(cfg: Config, log: seq<Call>, key: string, a: real, b: real)
    ensures Spend(GrantedCalls(cfg, log), key, a, b) == AdmittedWithin(cfg, On(log, key), |On(log, key)|, a, b)
  {
    hide Admits, Spend;
    if log == [] {
      assert Spend([], key, a, b) == 0.0 by { SpendNothing(key, a, b); }
    } else {
      var past, c := log[..|log| - 1], log[|log| - 1];
      var h := On(past, key);
      SpendIsAdmitted(cfg, past, key, a, b);
      SpendStep(GrantedCalls(cfg, past), c, key, a, b);
      assert GrantedCalls(cfg, log) == if Admits(cfg, On(past, c.key), c.item) then GrantedCalls(cfg, past) + [c]
                                       else GrantedCalls(cfg, past);
      if c.key == key {
        WithinPrefix(cfg, h, c.item, |h|, a, b);
        assert (h + [c.item])[..|h|] == h;
      }
    }
  }

  lemma SpendNothing(key: string, a: real, b: real)
    ensures Spend([], key, a, b) == 0.0
  {
  }

  lemma {:induction false} OnCharged(log: seq<Call>, key: string)
    requires Charged(log)
    ensures Charges(On(log, key))
  {
    if log != [] {
      OnCharged(log[..|log| - 1], key);
    }
  }

  /** On every key and in every interval, the granted calls of a whole log stay under the curve. */
  lemma LedgerBound(cfg: Config, log: seq<Call>, key: string, a: real, b: real)
    requires InOrder(log) && Charged(log) && a <= b && (cfg.refill >= 0.0 || cfg.capacity < 1.0)
    ensures Spend(GrantedCalls(cfg, log), key, a, b) <= Max(0.0, Curve(cfg, a, b))
  {
    OnInOrder(log, key);
    OnCharged(log, key);
    SpendIsAdmitted(cfg, log, key, a, b);
    ChargesBound(cfg, On(log, key), |On(log, key)|, a, b);
  }

  // ---------------------------------------------------------------- the class

  /** One token, and one more for every full `sizeDivisor` of characters; a divisor below one
      counts as one. With `IsCharge` the bounds leave one value. */
  function CostOf(cfg: Config, argsLength: nat): (cost: real)
    ensures IsCharge(cost)
    ensures var d := if cfg.sizeDivisor >= 1 then cfg.sizeDivisor as real else 1.0;
      (cost - 1.0) * d <= argsLength as real < cost * d
  {
    var divisor := if cfg.sizeDivisor >= 1 then cfg.sizeDivisor else 1;
    var units := Units(argsLength, divisor);
    assert 1.0 + units as real == (1 + units) as real;
    RealProduct(units, divisor);
    RealProduct(units + 1, divisor);
    1.0 + units as real
  }

  lemma RealProduct(a: int, b: int)
    ensures (a * b) as real == a as real * b as real
  {
  }

  /** Full units of `divisor` characters. */
  function Units(length: nat, divisor: int): (units: nat)
    requires divisor >= 1
    ensures units * divisor <= length < (units + 1) * divisor
  {
    length / divisor
  }

  /** The decision on a denied call that costs `cost` and finds `tokens`. */
  function Denial<S>(cfg: Config, cost: real, tokens: real): Decision<S> {
    var wait := Some(RetryAfter(cfg, cost, tokens));
    match cfg.mode
    case BlockMode => Decision(Block, Some("rate_limited"), ["rate_limit.bucket_empty"], None, map[], Some(429), wait)
    case ThrottleMode => Decision(Throttle, Some("rate_limited"), ["rate_limit.bucket_empty"], None, map[], None, wait)
  }

  /** The limiter's state as a value. */
  type Levels = map<string, Level>

  function Get(levels: Levels, key: string): Option<Level> {
    if key in levels then Some(levels[key]) else None
  }

  /** The levels are those that the log implies, for every key. */
  ghost predicate Tracks(cfg: Config, log: seq<Call>, levels: Levels) {
    forall key :: Get(levels, key) == BucketAfter(cfg, On(log, key))
  }

  lemma BucketStep(cfg: Config, past: seq<Request>, r: Request)
    ensures
      var tokens := TokensAt(cfg, past, r.time);
      BucketAfter(cfg, past + [r]) == Some(Level(if tokens >= r.cost then tokens - r.cost else tokens, r.time))
  {
    hide Available;
    assert (past + [r])[..|past|] == past;
  }

  lemma TracksStep(cfg: Config, log: seq<Call>, levels: Levels, c: Call)
    requires Tracks(cfg, log, levels)
    ensures
      var tokens := TokensAt(cfg, On(log, c.key), c.item.time);
      var left := if tokens >= c.item.cost then tokens - c.item.cost else tokens;
      Tracks(cfg, log + [c], levels[c.key := Level(left, c.item.time)])
  {
    hide TokensAt, On, BucketAfter;
    var tokens := TokensAt(cfg, On(log, c.key), c.item.time);
    var left := if tokens >= c.item.cost then tokens - c.item.cost else tokens;
    forall key
      ensures Get(levels[c.key := Level(left, c.item.time)], key) == BucketAfter(cfg, On(log + [c], key))
    {
      OnLast(log, c, key);
      BucketStep(cfg, On(log, c.key), c.item);
      assert Get(levels, key) == BucketAfter(cfg, On(log, key));
    }
  }

  class Bucket {
    var tokens: real
    var lastRefill: real

    constructor (tokens: real, lastRefill: real)
      ensures this.tokens == tokens && this.lastRefill == lastRefill
    {
      this.tokens, this.lastRefill := tokens, lastRefill;
    }
  }

  /** The decision on `request` after the requests `past` on its key. */
  function Answer<S>(cfg: Config, past: seq<Request>, request: Request): Decision<S> {
    if Admits(cfg, past, request) then Neutral()
    else Denial(cfg, request.cost, TokensAt(cfg, past, request.time))
  }

  /** What a client learns from an answer: a call was refused iff it is told to wait, and to
      wait that long is right, for every wait, under exactly this condition. In block mode the
      refusal is a 429, else a throttle without status. */
  lemma AnswerTellsWhen<S>(cfg: Config, past: seq<Request>, r: Request)
    ensures var d := Answer<S>(cfg, past, r);
      && (d.action == Allow <==> Admits(cfg, past, r)) && (d.retryAfter.Some? <==> d.action != Allow)
      && (d.action == Allow ==> d == Neutral())
      && (d.action != Allow ==>
            && d.action == (if cfg.mode == BlockMode then Block else Throttle)
            && d.statusCode == (if cfg.mode == BlockMode then Some(429) else None)
            && d.reason == Some("rate_limited") && d.triggeredBy == ["rate_limit.bucket_empty"])
      && (d.action != Allow ==>
            ((forall wait: real | wait >= 0.0 :: RetrySucceeds(cfg, past, r, wait) <==> wait >= d.retryAfter.value)
             <==> r.cost <= cfg.capacity && cfg.refill >= 0.000000001))
  {
    hide Admits, TokensAt, RetrySucceeds;
    if !Admits(cfg, past, r) {
      RetryAfterExact(cfg, past, r);
    }
  }

  /** A call whose size alone costs more than the capacity is refused, whatever came before it;
      and a first call is refused for nothing else. */
  lemma SizeDecides<S>(cfg: Config, past: seq<Request>, argsLength: nat, now: real)
    ensures var d := if cfg.sizeDivisor >= 1 then cfg.sizeDivisor as real else 1.0;
      var cost := CostOf(cfg, argsLength);
      && (argsLength as real >= cfg.capacity * d ==> cost > cfg.capacity)
      && (cost > cfg.capacity ==> Answer<S>(cfg, past, Request(now, cost)).action != Allow)
      && (Answer<S>(cfg, [], Request(now, cost)).action != Allow <==> cost > cfg.capacity)
  {
    hide CostOf;
    var d := if cfg.sizeDivisor >= 1 then cfg.sizeDivisor as real else 1.0;
    var cost := CostOf(cfg, argsLength);
    ProductOrder(cost, cfg.capacity, d);
    ProductOrder(cfg.capacity, cost, d);
  }

  class RateLimiter<S(==)> {
    const cfg: Config
    var buckets: map<string, Bucket>
    /** Every evaluation so far. */
    ghost var log: seq<Call>
    ghost var repr: set<Bucket>

    function Contents(): Levels
      reads this, repr
      requires forall key :: key in buckets ==> buckets[key] in repr
    {
      map key | key in buckets :: Level(buckets[key].tokens, buckets[key].lastRefill)
    }

    ghost predicate Separate()
      reads this
    {
      && (forall key :: key in buckets ==> buckets[key] in repr)
      && (forall k, l :: k in buckets && l in buckets && k != l ==> buckets[k] != buckets[l])
    }

    /** Each key seen so far has a bucket of its own, holding what the log says it should. */
    ghost predicate Valid()
      reads this, repr
    {
      Separate() && Tracks(cfg, log, Contents())
    }

    constructor (cfg: Config)
      ensures Valid() && this.cfg == cfg && log == [] && repr == {}
    {
      this.cfg, buckets, log, repr := cfg, map[], [], {};
    }

    /** Evaluates one tool call whose serialised arguments are `argsLength` long. */
    method Evaluate(tool: string, argsLength: nat, thread: Option<string>, tenant: Option<string>, now: real)
      returns (d: LensDecision<S>, detections: seq<Detection>)
      requires Valid()
      modifies this, repr
      ensures Valid() && fresh(d) && fresh(repr - old(repr))
      ensures !cfg.enabled ==> d.View() == Neutral() && detections == [] && log == old(log)
      ensures cfg.enabled ==>
        var key := KeyOf(IdentityOf(cfg, tool, thread, tenant));
        var request := Request(now, CostOf(cfg, argsLength));
        && log == old(log) + [Keyed(key, request)]
        && d.View() == Answer(cfg, On(old(log), key), request)
        && detections == if Admits(cfg, On(old(log), key), request) then []
                         else [Detection("rate_limit", "bucket_empty", Medium)]
    {
      hide TokensAt, RetryAfter, On;
      if !cfg.enabled {
        d := new LensDecision(Neutral());
        return d, [];
      }
      var key := MakeKey(tool, thread, tenant);
      var cost := CostOf(cfg, argsLength);
      var admitted, tokens := TryTake(key, cost, now);
      if admitted {
        d := new LensDecision(Neutral());
        return d, [];
      }
      d := Denied(cost, tokens);
      detections := [Detection("rate_limit", "bucket_empty", Medium)];
    }

    method Denied(cost: real, tokens: real) returns (d: LensDecision<S>)
      ensures fresh(d) && d.View() == Denial(cfg, cost, tokens)
    {
      var shortfall := cost - tokens;
      var wait := shortfall / Max(cfg.refill, 0.000000001);
      if cfg.mode == BlockMode {
        d := new LensDecision(Decision(Block, Some("rate_limited"), ["rate_limit.bucket_empty"],
                                       None, map[], Some(429), Some(wait)));
      } else {
        d := new LensDecision(Decision(Throttle, Some("rate_limited"), ["rate_limit.bucket_empty"],
                                       None, map[], None, Some(wait)));
      }
    }

    /** Refills the key's bucket and takes the cost out of it if it holds that much. */
    method TryTake(key: string, cost: real, now: real) returns (admitted: bool, tokens: real)
      requires Valid()
      modifies this, repr
      ensures Valid() && fresh(repr - old(repr))
      ensures log == old(log) + [Keyed(key, Request(now, cost))]
      ensures admitted == Admits(cfg, On(old(log), key), Request(now, cost))
      ensures !admitted ==> tokens == TokensAt(cfg, On(old(log), key), now)
    {
      hide TokensAt, On, BucketAfter;
      TracksStep(cfg, log, Contents(), Keyed(key, Request(now, cost)));
      var bucket := Refilled(key, now);
      log := log + [Keyed(key, Request(now, cost))];
      tokens := bucket.tokens;
      admitted := tokens >= cost;
      if admitted {
        bucket.tokens := bucket.tokens - cost;
      }
      assert Contents() == old(Contents())[key := Level(bucket.tokens, now)];
    }

    /** The bucket of a key, created full or brought up to date in place. */
    method Refilled(key: string, now: real) returns (bucket: Bucket)
      requires Valid()
      modifies this`buckets, this`repr, repr
      ensures Separate() && fresh(repr - old(repr))
      ensures key in buckets && buckets[key] == bucket && bucket.tokens == TokensAt(cfg, On(log, key), now)
      ensures Contents() == old(Contents())[key := Level(TokensAt(cfg, On(log, key), now), now)]
    {
      hide On, BucketAfter;
      assert Get(Contents(), key) == BucketAfter(cfg, On(log, key));
      if key !in buckets {
        bucket := new Bucket(cfg.capacity, now);
        buckets, repr := buckets[key := bucket], repr + {bucket};
      } else {
        bucket := buckets[key];
        var elapsed := now - bucket.lastRefill;
        bucket.tokens := Min(cfg.capacity, bucket.tokens + elapsed * cfg.refill);
        bucket.lastRefill := now;
      }
    }

    method MakeKey(tool: string, thread: Option<string>, tenant: Option<string>) returns (key: string)
      ensures key == KeyOf(IdentityOf(cfg, tool, thread, tenant))
      ensures var parts :=
          (if cfg.keyByTenant && tenant.Some? && tenant.value != "" then ["t=" + tenant.value] else [])
          + (if cfg.keyByThread && thread.Some? && thread.value != "" then ["th=" + thread.value] else [])
          + (if cfg.keyByTool then ["tl=" + tool] else []);
        key == if Join(parts) == "" then "global" else Join(parts)
    {
      var parts: seq<string> := [];
      if cfg.keyByTenant && tenant.Some? && tenant.value != "" {
        parts := parts + ["t=" + tenant.value];
      }
      var id := IdentityOf(cfg, tool, thread, tenant);
      assert parts == Labelled("t=", id.tenant);
      if cfg.keyByThread && thread.Some? && thread.value != "" {
        parts := parts + ["th=" + thread.value];
      }
      assert parts == Labelled("t=", id.tenant) + Labelled("th=", id.thread);
      if cfg.keyByTool {
        parts := parts + ["tl=" + tool];
      }
      assert parts == Labelled("t=", id.tenant) + Labelled("th=", id.thread) + Labelled("tl=", id.tool);
      key := Join(parts);
      if key == "" {
        key := "global";
      }
    }
  }
}
