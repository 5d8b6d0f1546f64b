/** The pruned deque as a fast form of "the part of the history not older than a cutoff". */
module SlidingWindow {
  import opened Common

  datatype Stamped<+T> = Stamped(at: real, item: T)

  /** The entries of `s` not older than `cutoff`, in order. */
  function Since<T>(s: seq<Stamped<T>>, cutoff: real): seq<Stamped<T>> {
    if s == [] then []
    else
      var rest := Since(s[..|s| - 1], cutoff);
      if s[|s| - 1].at >= cutoff then rest + [s[|s| - 1]] else rest
  }

  ghost predicate Ascending<T>(s: seq<Stamped<T>>) {
    Ordered(s, (e: Stamped<T>) => e.at)
  }

  lemma AscendEmpty<T>()
    ensures Ascending<T>([])
  {
  }

  lemma AscendAppend<T>(s: seq<Stamped<T>>, e: Stamped<T>)
    requires Ascending(s) && (s != [] ==> s[|s| - 1].at <= e.at)
    ensures Ascending(s + [e])
  {
  }

  lemma AscendSuffix<T>(s: seq<Stamped<T>>, k: nat)
    requires Ascending(s) && k <= |s|
    ensures Ascending(s[k..])
  {
  }

  /** What a deque holds that was pruned when the last entry of `s` came in. */
  function Window<T>(s: seq<Stamped<T>>, width: int): seq<Stamped<T>> {
    if s == [] then [] else Since(s, s[|s| - 1].at - width as real)
  }

  lemma {:induction false} SinceSuffix<T>(s: seq<Stamped<T>>, cutoff: real) returns (k: nat)
    requires Ascending(s)
    ensures k <= |s| && Since(s, cutoff) == s[k..]
    ensures forall i :: 0 <= i < |s| ==> (s[i].at >= cutoff <==> i >= k)
  {
    if s == [] {
      k := 0;
    } else {
      var init := s[..|s| - 1];
      k := SinceSuffix(init, cutoff);
      if s[|s| - 1].at >= cutoff {
        assert init[k..] + [s[|s| - 1]] == s[k..];
      } else {
        assert forall i :: 0 <= i < |init| ==> init[i].at <= s[|s| - 1].at;
        k := |s|;
      }
    }
  }

  /** Entries that an earlier cutoff let through and entries of the whole history are
      the same thing for a later cutoff. */
  lemma {:induction false} SinceTwice<T>(s: seq<Stamped<T>>, early: real, late: real)
    requires early <= late
    ensures Since(Since(s, early), late) == Since(s, late)
  {
    if s != [] {
      var init, last := s[..|s| - 1], s[|s| - 1];
      SinceTwice(init, early, late);
      if last.at >= early {
        assert (Since(init, early) + [last])[..|Since(init, early)|] == Since(init, early);
      }
    }
  }

  lemma SinceLast<T>(s: seq<Stamped<T>>, e: Stamped<T>, cutoff: real)
    ensures Since(s + [e], cutoff) == Since(s, cutoff) + if e.at >= cutoff then [e] else []
  {
    assert (s + [e])[..|s|] == s;
  }

  /** Appending to the pruned deque and pruning again is windowing the whole history. */
  lemma WindowStep<T>(s: seq<Stamped<T>>, e: Stamped<T>, width: int)
    requires Ascending(s + [e])
    ensures Window(s + [e], width) == Since(Window(s, width) + [e], e.at - width as real)
  {
    var cutoff := e.at - width as real;
    SinceLast(s, e, cutoff);
    SinceLast(Window(s, width), e, cutoff);
    if s != [] {
      assert (s + [e])[|s| - 1] == s[|s| - 1] && (s + [e])[|s|] == e;
      SinceTwice(s, s[|s| - 1].at - width as real, cutoff);
    }
  }

  lemma WindowAscending<T>(s: seq<Stamped<T>>, e: Stamped<T>, width: int)
    requires Ascending(s + [e])
    ensures Ascending(Window(s, width) + [e])
  {
    hide Since, Ascending;
    if s == [] {
      assert Window(s, width) + [e] == s + [e];
    } else {
      AscendPrefix(s, e);
      var k := SinceSuffix(s, s[|s| - 1].at - width as real);
      AscendSuffix(s + [e], k);
      assert Window(s, width) + [e] == (s + [e])[k..];
    }
  }

  lemma AscendPrefix<T>(s: seq<Stamped<T>>, e: Stamped<T>)
    requires Ascending(s + [e])
    ensures Ascending(s)
  {
    assert forall i :: 0 <= i < |s| ==> (s + [e])[i] == s[i];
  }

  /** The popleft loop. */
  method DropBefore<T>(deque: seq<Stamped<T>>, cutoff: real) returns (kept: seq<Stamped<T>>)
    requires Ascending(deque)
    ensures kept == Since(deque, cutoff)
  {
    kept := deque;
    ghost var k := SinceSuffix(deque, cutoff);
    ghost var popped := 0;
    while kept != [] && kept[0].at < cutoff
      invariant popped <= k && kept == deque[popped..]
    {
      kept := kept[1..];
      popped := popped + 1;
    }
  }

  /** Append at the right, then pop stale entries at the left. */
  method Push<T>(ghost s: seq<Stamped<T>>, deque: seq<Stamped<T>>, e: Stamped<T>, width: int)
    returns (kept: seq<Stamped<T>>)
    requires deque == Window(s, width) && Ascending(s + [e])
    ensures kept == Window(s + [e], width)
  {
    WindowStep(s, e, width);
    WindowAscending(s, e, width);
    kept := DropBefore(deque + [e], e.at - width as real);
  }
}
