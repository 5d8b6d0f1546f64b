/** Interleaved histories of many keys, and their projections to one key. */
module Histories {

  datatype Keyed<+T> = Keyed(key: string, item: T)

  /** The entries of `log` on one key, in order. */
  function On<T>(log: seq<Keyed<T>>, key: string): seq<T> {
    if log == [] then []
    else
      var rest := On(log[..|log| - 1], key);
      var e := log[|log| - 1];
      if e.key == key then rest + [e.item] else rest
  }

  function Without<T>(s: seq<T>, i: nat): seq<T>
    requires i < |s|
  {
    s[..i] + s[i + 1..]
  }

  lemma OnLast<T>(log: seq<Keyed<T>>, e: Keyed<T>, key: string)
    ensures On(log + [e], key) == if key == e.key then On(log, key) + [e.item] else On(log, key)
  {
    assert (log + [e])[..|log|] == log;
  }

  lemma {:induction false} OnAppend<T>(log: seq<Keyed<T>>, more: seq<Keyed<T>>, key: string)
    ensures On(log + more, key) == On(log, key) + On(more, key)
  {
    if more == [] {
      assert log + more == log;
    } else {
      OnAppend(log, more[..|more| - 1], key);
      assert (log + more)[..|log + more| - 1] == log + more[..|more| - 1];
    }
  }

  /** What the entries on one key are, with and without entry `i`. */
  lemma OnWithout<T>(log: seq<Keyed<T>>, i: nat, n: nat, key: string)
    requires i < n <= |log|
    ensures On(log[..n], key)
         == On(log[..i], key) + (if log[i].key == key then [log[i].item] else []) + On(log[i + 1..n], key)
    ensures On(Without(log, i)[..n - 1], key) == On(log[..i], key) + On(log[i + 1..n], key)
    ensures n < |log| ==> Without(log, i)[n - 1] == log[n]
  {
    assert log[..n] == log[..i] + [log[i]] + log[i + 1..n];
    assert Without(log, i)[..n - 1] == log[..i] + log[i + 1..n];
    OnAppend(log[..i] + [log[i]], log[i + 1..n], key);
    OnLast(log[..i], log[i], key);
    OnAppend(log[..i], log[i + 1..n], key);
  }

  /** Entries on other keys leave a projection as it is. */
  lemma OtherKeysInvisible<T>(log: seq<Keyed<T>>, i: nat, n: nat, key: string)
    requires i < n <= |log| && log[i].key != key
    ensures On(Without(log, i)[..n - 1], key) == On(log[..n], key)
    ensures n < |log| ==> Without(log, i)[n - 1] == log[n]
  {
    OnWithout(log, i, n, key);
    assert On(log[..i], key) + [] == On(log[..i], key);
  }

  /** A projection has exactly the items of its key. */
  lemma {:induction false} InOn<T>(log: seq<Keyed<T>>, key: string, x: T)
    ensures x in On(log, key) <==> exists k :: 0 <= k < |log| && log[k] == Keyed(key, x)
  {
    if log != [] {
      var init, last := log[..|log| - 1], log[|log| - 1];
      InOn(init, key, x);
      assert log == init + [last];
      assert forall k :: 0 <= k < |init| ==> init[k] == log[k];
      if last == Keyed(key, x) {
        assert log[|init|] == Keyed(key, x);
      }
    }
  }
}
