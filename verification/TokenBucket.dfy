/** One token bucket over a history of requests (interventions/rate_limiter.py): lazy refill,
    greedy admission, and the delay reported with a denial. */
module TokenBucket {
  import opened Common
  import opened Histories

  datatype Mode = ThrottleMode | BlockMode

  datatype Config = Config(
    enabled: bool,
    mode: Mode,
    capacity: real,
    refill: real,
    sizeDivisor: int,
    keyByTenant: bool,
    keyByThread: bool,
    keyByTool: bool)

  /** One evaluation on a fixed key. */
  datatype Request = Request(time: real, cost: real)

  datatype Level = Level(tokens: real, lastRefill: real)

  /** Tokens that accrue from `s` to `t`. */
  function Gain(cfg: Config, s: real, t: real): real {
    (t - s) * cfg.refill
  }

  /** Tokens available at `now`: a missing bucket is full, another one is refilled lazily. */
  function Available(cfg: Config, bucket: Option<Level>, now: real): real {
    match bucket
    case None => cfg.capacity
    case Some(b) => Min(cfg.capacity, b.tokens + Gain(cfg, b.lastRefill, now))
  }

  /** The bucket left behind by the requests `h`. */
  function BucketAfter(cfg: Config, h: seq<Request>): Option<Level> {
    if h == [] then None
    else
      var past, r := h[..|h| - 1], h[|h| - 1];
      var tokens := Available(cfg, BucketAfter(cfg, past), r.time);
      Some(Level(if tokens >= r.cost then tokens - r.cost else tokens, r.time))
  }

  /** Tokens a request at `now` finds after the requests `h`. */
  function TokensAt(cfg: Config, h: seq<Request>, now: real): real {
    Available(cfg, BucketAfter(cfg, h), now)
  }

  predicate Admits(cfg: Config, h: seq<Request>, r: Request) {
    TokensAt(cfg, h, r.time) >= r.cost
  }

  predicate Admitted(cfg: Config, h: seq<Request>, i: nat)
    requires i < |h|
  {
    Admits(cfg, h[..i], h[i])
  }

  /** What request `i` took out of the bucket. */
  function Spent(cfg: Config, h: seq<Request>, i: nat): real
    requires i < |h|
  {
    if Admitted(cfg, h, i) then h[i].cost else 0.0
  }

  /** Cost admitted among the requests `from <= k < to`. */
  function AdmittedCost(cfg: Config, h: seq<Request>, from: nat, to: nat): real
    requires from <= to <= |h|
  {
    if from == to then 0.0
    else AdmittedCost(cfg, h, from, to - 1) + (if Admitted(cfg, h, to - 1) then h[to - 1].cost else 0.0)
  }

  /** Cost admitted by requests number 0 to `n` - 1 whose time lies in [a, b]. */
  function AdmittedWithin(cfg: Config, h: seq<Request>, n: nat, a: real, b: real): real
    requires n <= |h|
  {
    if n == 0 then 0.0
    else
      AdmittedWithin(cfg, h, n - 1, a, b)
      + (if a <= h[n - 1].time <= b && Admitted(cfg, h, n - 1) then h[n - 1].cost else 0.0)
  }

  ghost predicate Chronological(h: seq<Request>) {
    Ordered(h, (r: Request) => r.time)
  }

  /** The arrival curve: what may be spent from time `s` to time `t`. */
  function Curve(cfg: Config, s: real, t: real): real {
    cfg.capacity + (t - s) * cfg.refill
  }

  /** Tokens that request `i` finds. */
  function Found(cfg: Config, h: seq<Request>, i: nat): real
    requires i < |h|
  {
    TokensAt(cfg, h[..i], h[i].time)
  }

  lemma FoundStep(cfg: Config, h: seq<Request>, i: nat)
    requires 0 < i < |h|
    ensures Found(cfg, h, i)
         == Min(cfg.capacity, Found(cfg, h, i - 1) - Spent(cfg, h, i - 1) + Gain(cfg, h[i - 1].time, h[i].time))
  {
    assert h[..i][..i - 1] == h[..i - 1];
  }

  lemma FoundAtMost(cfg: Config, h: seq<Request>, i: nat)
    requires i < |h|
    ensures Found(cfg, h, i) <= cfg.capacity
  {
  }

  lemma FirstFindsAll(cfg: Config, h: seq<Request>)
    requires h != []
    ensures Found(cfg, h, 0) == cfg.capacity
  {
  }

  lemma GainAdds(cfg: Config, s: real, t: real, u: real)
    ensures Gain(cfg, s, t) + Gain(cfg, t, u) == Gain(cfg, s, u)
    ensures Gain(cfg, t, t) == 0.0
    ensures cfg.refill >= 0.0 && s <= t ==> Gain(cfg, s, t) >= 0.0
  {
  }

  lemma CurveIs(cfg: Config, s: real, t: real)
    ensures Curve(cfg, s, t) == cfg.capacity + Gain(cfg, s, t)
  {
  }

  /** The lazily refilled bucket holds the minimum over all earlier evaluations of
      what the curve started there still allows: it lies below each of them ... */
  lemma {:induction false} TokensBelowCurve(cfg: Config, h: seq<Request>, i: nat, j: nat)
    requires j <= i < |h|
    ensures Found(cfg, h, i) <= Curve(cfg, h[j].time, h[i].time) - AdmittedCost(cfg, h, j, i)
  {
    hide Gain, Curve, TokensAt, Admits;
    CurveIs(cfg, h[j].time, h[i].time);
    FoundAtMost(cfg, h, i);
    if j == i {
      GainAdds(cfg, h[j].time, h[j].time, h[j].time);
    } else {
      CurveIs(cfg, h[j].time, h[i - 1].time);
      FoundStep(cfg, h, i);
      TokensBelowCurve(cfg, h, i - 1, j);
      GainAdds(cfg, h[j].time, h[i - 1].time, h[i].time);
    }
  }

  /** ... and one of them is attained. */
  lemma {:induction false} TokensOnCurve(cfg: Config, h: seq<Request>, i: nat) returns (j: nat)
    requires i < |h|
    ensures j <= i
    ensures Found(cfg, h, i) == Curve(cfg, h[j].time, h[i].time) - AdmittedCost(cfg, h, j, i)
  {
    hide Gain, Curve, TokensAt, Admits;
    j := i;
    GainAdds(cfg, h[i].time, h[i].time, h[i].time);
    CurveIs(cfg, h[i].time, h[i].time);
    if i == 0 {
      FirstFindsAll(cfg, h);
    } else {
      FoundStep(cfg, h, i);
      if Found(cfg, h, i) != cfg.capacity {
        j := TokensOnCurve(cfg, h, i - 1);
        CurveIs(cfg, h[j].time, h[i].time);
        CurveIs(cfg, h[j].time, h[i - 1].time);
        GainAdds(cfg, h[j].time, h[i - 1].time, h[i].time);
      }
    }
  }

  /** Room under the curve started at evaluation `j` for request `i`. */
  predicate FitsFrom(cfg: Config, h: seq<Request>, j: nat, i: nat)
    requires j <= i < |h|
  {
    AdmittedCost(cfg, h, j, i) + h[i].cost <= Curve(cfg, h[j].time, h[i].time)
  }

  /** Exact conformance: a request is admitted iff it fits under every curve started at
      an earlier-or-equal evaluation. No assumption on rates, costs or the clock. */
  lemma AdmittedIffFits(cfg: Config, h: seq<Request>, i: nat)
    requires i < |h|
    ensures Admitted(cfg, h, i) <==> forall j: nat | j <= i :: FitsFrom(cfg, h, j, i)
  {
    forall j: nat | j <= i
      ensures Admitted(cfg, h, i) ==> FitsFrom(cfg, h, j, i)
    {
      TokensBelowCurve(cfg, h, i, j);
    }
    var j := TokensOnCurve(cfg, h, i);
    assert FitsFrom(cfg, h, j, i) ==> Admitted(cfg, h, i);
  }

  /** In any interval of time the admitted cost stays under the curve. */
  lemma {:induction false} IntervalBound(cfg: Config, h: seq<Request>, n: nat, a: real, b: real)
    requires n <= |h| && Chronological(h) && a <= b
    requires cfg.capacity >= 0.0 && cfg.refill >= 0.0
    ensures AdmittedWithin(cfg, h, n, a, b) <= Curve(cfg, a, b)
  {
    if n > 0 {
      var k := n - 1;
      if a <= h[k].time <= b && Admitted(cfg, h, k) {
        var j := SinceIndex(cfg, h, k, a, b);
        AdmittedIffFits(cfg, h, k);
        assert FitsFrom(cfg, h, j, k);
        GainMonotone(cfg, a, h[j].time, h[k].time, b);
      } else {
        IntervalBound(cfg, h, k, a, b);
      }
    } else {
      GainAdds(cfg, a, b, b);
    }
  }

  lemma GainMonotone(cfg: Config, a: real, s: real, t: real, b: real)
    requires cfg.refill >= 0.0 && a <= s && t <= b
    ensures Gain(cfg, s, t) <= Gain(cfg, a, b)
  {
    assert Gain(cfg, a, b) - Gain(cfg, s, t) == Gain(cfg, a, s) + Gain(cfg, t, b);
    GainAdds(cfg, a, s, s);
    GainAdds(cfg, t, b, b);
  }

  /** The requests before `k` timed in [a, b] are those from some index `j` on. */
  lemma {:induction false} SinceIndex(cfg: Config, h: seq<Request>, k: nat, a: real, b: real) returns (j: nat)
    requires k < |h| && Chronological(h) && a <= h[k].time <= b
    ensures j <= k && a <= h[j].time
    ensures AdmittedWithin(cfg, h, k, a, b) == AdmittedCost(cfg, h, j, k)
  {
    if k == 0 || h[k - 1].time < a {
      j := k;
      NothingBefore(cfg, h, k, a, b);
    } else {
      j := SinceIndex(cfg, h, k - 1, a, b);
    }
  }

  lemma {:induction false} NothingBefore(cfg: Config, h: seq<Request>, k: nat, a: real, b: real)
    requires k <= |h| && forall i :: 0 <= i < k ==> h[i].time < a
    ensures AdmittedWithin(cfg, h, k, a, b) == 0.0
  {
    if k > 0 {
      NothingBefore(cfg, h, k - 1, a, b);
    }
  }

  /** A cost that is charged: one token, and whole tokens for the size. */
  predicate IsCharge(cost: real) {
    cost >= 1.0 && cost == cost.Floor as real
  }

  ghost predicate Charges(h: seq<Request>) {
    forall i :: 0 <= i < |h| ==> IsCharge(h[i].cost)
  }

  /** In every interval of every history of charges, what is admitted stays under the curve;
      nothing is admitted where the curve is below zero. */
  ghost predicate Conforms(cfg: Config) {
    forall h, n: nat, a, b :: n <= |h| && Chronological(h) && Charges(h) && a <= b ==>
      AdmittedWithin(cfg, h, n, a, b) <= Max(0.0, Curve(cfg, a, b))
  }

  /** The exact condition on the configuration, which nothing validates: with a negative refill
      rate, a token that was admitted exceeds the curve once that has come down to zero. */
  lemma ConformsIff(cfg: Config)
    ensures Conforms(cfg) <==> cfg.refill >= 0.0 || cfg.capacity < 1.0
  {
    if cfg.refill >= 0.0 || cfg.capacity < 1.0 {
      forall h, n: nat, a, b | n <= |h| && Chronological(h) && Charges(h) && a <= b
        ensures AdmittedWithin(cfg, h, n, a, b) <= Max(0.0, Curve(cfg, a, b))
      {
        ChargesBound(cfg, h, n, a, b);
      }
    } else {
      var r, span := Request(0.0, 1.0), cfg.capacity / -cfg.refill;
      QuotientPositive(cfg.capacity, -cfg.refill);
      assert Gain(cfg, 0.0, span) == -cfg.capacity;
      assert [r][..0] == [] && Admitted(cfg, [r], 0);
      assert AdmittedWithin(cfg, [r], 0, 0.0, span) == 0.0;
      assert AdmittedWithin(cfg, [r], 1, 0.0, span) == 1.0 && Curve(cfg, 0.0, span) == 0.0;
    }
  }

  lemma ChargesBound(cfg: Config, h: seq<Request>, n: nat, a: real, b: real)
    requires n <= |h| && Chronological(h) && Charges(h) && a <= b
    requires cfg.refill >= 0.0 || cfg.capacity < 1.0
    ensures AdmittedWithin(cfg, h, n, a, b) <= Max(0.0, Curve(cfg, a, b))
  {
    if cfg.capacity < 1.0 {
      NothingAdmitted(cfg, h, n, a, b);
    } else {
      IntervalBound(cfg, h, n, a, b);
    }
  }

  lemma {:induction false} NothingAdmitted(cfg: Config, h: seq<Request>, n: nat, a: real, b: real)
    requires n <= |h| && forall i :: 0 <= i < |h| ==> h[i].cost > cfg.capacity
    ensures AdmittedWithin(cfg, h, n, a, b) == 0.0
  {
    if n > 0 {
      NothingAdmitted(cfg, h, n - 1, a, b);
    }
  }

  // ------------------------------------------------- denied calls leave no trace

  /** Two capped refills compose: a denied request is invisible at every later time. */
  lemma DeniedInvisible(cfg: Config, h: seq<Request>, r: Request, now: real)
    requires cfg.refill >= 0.0
    requires h == [] || h[|h| - 1].time <= r.time
    requires r.time <= now
    requires !Admits(cfg, h, r)
    ensures TokensAt(cfg, h + [r], now) == TokensAt(cfg, h, now)
  {
    assert (h + [r])[..|h|] == h;
    GainAdds(cfg, r.time, now, now);
    if h != [] {
      GainAdds(cfg, BucketAfter(cfg, h).value.lastRefill, r.time, now);
    }
  }

  /** Histories that look alike to a request look alike ever after. */
  lemma SameAfter(cfg: Config, g: seq<Request>, h: seq<Request>, r: Request, now: real)
    requires TokensAt(cfg, g, r.time) == TokensAt(cfg, h, r.time)
    ensures TokensAt(cfg, g + [r], now) == TokensAt(cfg, h + [r], now)
  {
    hide Available;
    assert (g + [r])[..|g|] == g && (h + [r])[..|h|] == h;
  }

  /** Deleting one denied request changes no later bucket, hence no later decision. */
  lemma {:induction false} DeletionKeepsTokens(cfg: Config, h: seq<Request>, i: nat, n: nat, now: real)
    requires cfg.refill >= 0.0 && Chronological(h)
    requires i < n <= |h| && !Admitted(cfg, h, i)
    requires h[n - 1].time <= now
    ensures TokensAt(cfg, h[..n], now) == TokensAt(cfg, Without(h[..n], i), now)
    decreases n
  {
    hide TokensAt;
    if n == i + 1 {
      assert h[..n] == h[..i] + [h[i]] && Without(h[..n], i) == h[..i];
      DeniedInvisible(cfg, h[..i], h[i], now);
    } else {
      var r := h[n - 1];
      DeletionKeepsTokens(cfg, h, i, n - 1, r.time);
      SameAfter(cfg, h[..n - 1], Without(h[..n - 1], i), r, now);
      assert h[..n] == h[..n - 1] + [r] && Without(h[..n], i) == Without(h[..n - 1], i) + [r];
    }
  }

  /** A run of denied requests is invisible too. */
  lemma {:induction false} DeniedRunInvisible(cfg: Config, h: seq<Request>, m: nat, n: nat, now: real)
    requires cfg.refill >= 0.0 && Chronological(h)
    requires m <= n <= |h| && forall k :: m <= k < n ==> !Admitted(cfg, h, k)
    requires n > 0 ==> h[n - 1].time <= now
    ensures TokensAt(cfg, h[..n], now) == TokensAt(cfg, h[..m], now)
    decreases n
  {
    hide TokensAt;
    if m < n {
      assert h[..n] == h[..n - 1] + [h[n - 1]] && !Admitted(cfg, h, n - 1);
      DeniedInvisible(cfg, h[..n - 1], h[n - 1], now);
      DeniedRunInvisible(cfg, h, m, n - 1, now);
    }
  }

  // ------------------------------------------------------------- retry_after

  /** The delay reported with a denial; a tiny or negative refill rate is replaced by 1e-9. */
  function RetryAfter(cfg: Config, cost: real, tokens: real): real {
    (cost - tokens) / Max(cfg.refill, 0.000000001)
  }

  /** The same cost is admitted `wait` seconds after the denied request `r`. */
  predicate RetrySucceeds(cfg: Config, h: seq<Request>, r: Request, wait: real) {
    Admits(cfg, h + [r], Request(r.time + wait, r.cost))
  }

  lemma RetryLevel(cfg: Config, h: seq<Request>, r: Request, wait: real)
    requires !Admits(cfg, h, r)
    ensures RetrySucceeds(cfg, h, r, wait)
       <==> Min(cfg.capacity, TokensAt(cfg, h, r.time) + wait * cfg.refill) >= r.cost
  {
    assert (h + [r])[..|h|] == h;
  }

  lemma WaitSuffices(cfg: Config, cost: real, tokens: real, wait: real)
    requires tokens < cost <= cfg.capacity && cfg.refill >= 0.000000001
    ensures Min(cfg.capacity, tokens + wait * cfg.refill) >= cost <==> wait >= RetryAfter(cfg, cost, tokens)
  {
    var delay := RetryAfter(cfg, cost, tokens);
    assert delay * cfg.refill == cost - tokens;
    ProductOrder(wait, delay, cfg.refill);
  }

  lemma WaitFallsShort(cfg: Config, cost: real, tokens: real)
    requires tokens < cost && (cost > cfg.capacity || cfg.refill < 0.000000001)
    ensures RetryAfter(cfg, cost, tokens) >= 0.0
    ensures Min(cfg.capacity, tokens + RetryAfter(cfg, cost, tokens) * cfg.refill) < cost
  {
    var delay, rate := RetryAfter(cfg, cost, tokens), Max(cfg.refill, 0.000000001);
    assert delay * rate == cost - tokens;
    QuotientPositive(cost - tokens, rate);
    if cost <= cfg.capacity {
      ProductOrderStrict(cfg.refill, rate, delay);
    }
  }

  /** `retry_after` is the exact waiting time iff the cost fits the capacity and the
      refill rate is at least 1e-9: the guard of the `max` and the cap. */
  lemma RetryAfterExact(cfg: Config, h: seq<Request>, r: Request)
    requires !Admits(cfg, h, r)
    ensures (forall wait: real | wait >= 0.0 ::
               RetrySucceeds(cfg, h, r, wait) <==> wait >= RetryAfter(cfg, r.cost, TokensAt(cfg, h, r.time)))
       <==> r.cost <= cfg.capacity && cfg.refill >= 0.000000001
  {
    hide RetryAfter, RetrySucceeds, TokensAt;
    var tokens := TokensAt(cfg, h, r.time);
    var delay := RetryAfter(cfg, r.cost, tokens);
    if r.cost <= cfg.capacity && cfg.refill >= 0.000000001 {
      forall wait: real | wait >= 0.0
        ensures RetrySucceeds(cfg, h, r, wait) <==> wait >= delay
      {
        RetryLevel(cfg, h, r, wait);
        WaitSuffices(cfg, r.cost, tokens, wait);
      }
    } else {
      RetryLevel(cfg, h, r, delay);
      WaitFallsShort(cfg, r.cost, tokens);
      assert !RetrySucceeds(cfg, h, r, delay);
    }
  }

  /** The same exact delay when other, all denied, requests come in between. */
  lemma RetryAfterExactDespiteDenials(cfg: Config, h: seq<Request>, r: Request, between: seq<Request>, wait: real)
    requires !Admits(cfg, h, r) && wait >= 0.0
    requires r.cost <= cfg.capacity && cfg.refill >= 0.000000001
    requires Chronological(h + [r] + between)
    requires forall k :: |h| < k <= |h| + |between| ==> !Admitted(cfg, h + [r] + between, k)
    requires between != [] ==> between[|between| - 1].time <= r.time + wait
    ensures Admits(cfg, h + [r] + between, Request(r.time + wait, r.cost))
       <==> wait >= RetryAfter(cfg, r.cost, TokensAt(cfg, h, r.time))
  {
    var all := h + [r] + between;
    assert all[..|all|] == all && all[..|h| + 1] == h + [r];
    DeniedRunInvisible(cfg, all, |h| + 1, |all|, r.time + wait);
    RetryAfterExact(cfg, h, r);
    assert RetrySucceeds(cfg, h, r, wait) <==> wait >= RetryAfter(cfg, r.cost, TokensAt(cfg, h, r.time));
  }

  lemma QuotientPositive(x: real, y: real)
    requires x > 0.0 && y > 0.0
    ensures x / y > 0.0
  {
    var q := x / y;
    assert q * y == x;
    assert q <= 0.0 ==> q * y <= 0.0;
  }

  lemma ProductOrder(x: real, y: real, z: real)
    requires z > 0.0
    ensures x * z >= y * z <==> x >= y
  {
    assert x * z - y * z == (x - y) * z;
  }

  lemma ProductOrderStrict(x: real, y: real, z: real)
    requires x < y && z > 0.0
    ensures z * x < z * y
  {
    assert z * y - z * x == z * (y - x);
  }
}
