/** Small vocabulary shared by every component: optional values, detections and their
    severities, and how many events a minimum distance leaves room for. */
module Common {

  datatype Option<+T> = None | Some(value: T)

  /** Severity of a detection, ordered from harmless to critical. */
  datatype Severity = Low | Medium | High | Critical {
    function Rank(): nat {
      match this
      case Low => 0
      case Medium => 1
      case High => 2
      case Critical => 3
    }
  }

  /** One finding of a detector. The free-form `extra` payload is not modelled. */
  datatype Detection = Detection(detector: string, rule: string, severity: Severity)

  function When(condition: bool, detector: string, rule: string, severity: Severity): seq<Detection> {
    if condition then [Detection(detector, rule, severity)] else []
  }

  function Min(x: real, y: real): real {
    if x <= y then x else y
  }

  function Max(x: real, y: real): real {
    if x >= y then x else y
  }

  /** The clock does not run backwards along `s`, which was stamped at the times `at`. */
  ghost predicate Ordered<T>(s: seq<T>, at: T -> real) {
    forall i, j :: 0 <= i <= j < |s| ==> at(s[i]) <= at(s[j])
  }

  /** `n` gaps of length `c`. */
  function Times(n: nat, c: real): real {
    n as real * c
  }

  lemma TimesStep(n: nat, c: real)
    ensures Times(n + 1, c) == Times(n, c) + c && Times(0, c) == 0.0
  {
  }

  /** If `n` gaps fit into a length then `n` is at most its quotient, rounded down. */
  lemma TimesFloor(n: nat, c: real, length: real)
    requires c > 0.0 && Times(n, c) <= length
    ensures n <= (length / c).Floor
  {
    var q := length / c;
    assert q * c == length;
    assert (q - n as real) * c >= 0.0;
    assert q - n as real >= 0.0;
  }

  /** Any two of the times, which are in order, are at least `c` apart. */
  ghost predicate Spaced(times: seq<real>, c: real) {
    forall i, j :: 0 <= i < j < |times| ==> times[j] - times[i] >= c
  }

  lemma {:induction false} SpacedSpan(times: seq<real>, c: real)
    requires times != [] && Spaced(times, c)
    ensures Times(|times| - 1, c) <= times[|times| - 1] - times[0]
  {
    hide Times;
    TimesStep(if |times| > 1 then |times| - 2 else 0, c);
    if |times| > 1 {
      SpacedSpan(times[..|times| - 1], c);
    }
  }

  /** At most 1 + floor(L / c) such times fit into an interval of length L. */
  lemma SpacedCount(times: seq<real>, c: real, length: real)
    requires c > 0.0 && length >= 0.0 && Spaced(times, c)
    requires times != [] ==> times[|times| - 1] - times[0] <= length
    ensures |times| <= 1 + (length / c).Floor
  {
    if times == [] {
      TimesFloor(0, c, length);
    } else {
      SpacedSpan(times, c);
      TimesFloor(|times| - 1, c, length);
    }
  }

  /** The numbers `from <= k < to` that satisfy `p`, in order. */
  function Where(p: nat -> bool, from: nat, to: nat): (r: seq<nat>)
    requires from <= to
    ensures forall x :: 0 <= x < |r| ==> from <= r[x] < to && p(r[x])
    ensures forall x, y :: 0 <= x < y < |r| ==> r[x] < r[y]
  {
    if from == to then []
    else Where(p, from, to - 1) + if p(to - 1) then [to - 1] else []
  }

  lemma {:induction false} WhereAll(p: nat -> bool, from: nat, to: nat, k: nat)
    requires from <= k < to && p(k)
    ensures k in Where(p, from, to)
  {
    if k < to - 1 {
      WhereAll(p, from, to - 1, k);
    }
  }

  lemma SameTail(a: string, b: string, c: string)
    ensures a + b == a + c <==> b == c
  {
    if a + b == a + c {
      assert (a + b)[|a|..] == b && (a + c)[|a|..] == c;
    }
  }
}
