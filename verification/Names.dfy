/** The order in which Python sorts strings. */
module Names {

  /** Character by character, a beginning before the whole. */
  predicate Precedes(a: string, b: string)
    decreases |a|
  {
    b != "" && (a == "" || a[0] < b[0] || (a[0] == b[0] && Precedes(a[1..], b[1..])))
  }

  predicate Increasing(s: seq<string>) {
    forall i, j :: 0 <= i < j < |s| ==> Precedes(s[i], s[j])
  }

  lemma {:induction false} PrecedesTotal(a: string, b: string)
    ensures a != b ==> Precedes(a, b) != Precedes(b, a)
    ensures !Precedes(a, a)
    decreases |a|
  {
    if a != "" {
      PrecedesTotal(a[1..], if b == "" then "" else b[1..]);
      if b != "" {
        assert a == [a[0]] + a[1..] && b == [b[0]] + b[1..];
      }
    }
  }

  lemma {:induction false} PrecedesTransitive(a: string, b: string, c: string)
    requires Precedes(a, b) && Precedes(b, c)
    ensures Precedes(a, c)
    decreases |a|
  {
    if a != "" && a[0] == b[0] == c[0] {
      PrecedesTransitive(a[1..], b[1..], c[1..]);
    }
  }

  function Inserted(x: string, s: seq<string>): (r: seq<string>)
    requires Increasing(s) && x !in s
    ensures Increasing(r) && multiset(r) == multiset(s) + multiset{x}
  {
    if s == [] then [x]
    else
      assert s == [s[0]] + s[1..];
      if Precedes(x, s[0]) then
        FirstPrecedes(x, s);
        [x] + s
      else
        var rest := Inserted(x, s[1..]);
        AllAfter(x, s, rest);
        [s[0]] + rest
  }

  lemma FirstPrecedes(x: string, s: seq<string>)
    requires s != [] && Increasing(s) && Precedes(x, s[0])
    ensures Increasing([x] + s)
  {
    forall j | 0 < j < |s|
      ensures Precedes(x, s[j])
    {
      PrecedesTransitive(x, s[0], s[j]);
    }
  }

  lemma AllAfter(x: string, s: seq<string>, rest: seq<string>)
    requires s != [] && Increasing(s) && x !in s && !Precedes(x, s[0])
    requires Increasing(rest) && multiset(rest) == multiset(s[1..]) + multiset{x}
    ensures Increasing([s[0]] + rest)
  {
    forall j | 0 <= j < |rest|
      ensures Precedes(s[0], rest[j])
    {
      assert rest[j] in multiset(rest);
      if rest[j] == x {
        PrecedesTotal(x, s[0]);
      } else {
        assert rest[j] in s[1..];
      }
    }
  }

  /** A set of names, sorted. */
  ghost function Sorted(names: set<string>): (r: seq<string>)
    ensures Increasing(r) && multiset(r) == multiset(names)
  {
    if names == {} then []
    else
      var name :| name in names;
      var rest := Sorted(names - {name});
      assert multiset(names) == multiset(names - {name}) + multiset{name};
      assert name !in rest by {
        assert name !in multiset(rest);
      }
      Inserted(name, rest)
  }

  /** There is only one way to sort them. */
  lemma SortedIs(names: set<string>, s: seq<string>)
    requires Increasing(s) && multiset(s) == multiset(names)
    ensures s == Sorted(names)
  {
    OneOrder(s, Sorted(names));
  }

  lemma {:induction false} OneOrder(a: seq<string>, b: seq<string>)
    requires Increasing(a) && Increasing(b) && multiset(a) == multiset(b)
    ensures a == b
  {
    assert |a| == |multiset(a)| == |multiset(b)| == |b|;
    if a != [] {
      SameFirst(a, b);
      Rest(a);
      Rest(b);
      hide Increasing;
      OneOrder(a[1..], b[1..]);
    }
  }

  lemma Rest(s: seq<string>)
    requires s != [] && Increasing(s)
    ensures s == [s[0]] + s[1..] && multiset(s[1..]) == multiset(s) - multiset{s[0]} && Increasing(s[1..])
  {
    assert s == [s[0]] + s[1..];
  }

  lemma SameFirst(a: seq<string>, b: seq<string>)
    requires Increasing(a) && Increasing(b) && multiset(a) == multiset(b) && a != []
    ensures b != [] && a[0] == b[0]
  {
    assert a[0] in multiset(b);
    var i :| 0 <= i < |b| && b[i] == a[0];
    assert b[0] in multiset(a);
    var j :| 0 <= j < |a| && a[j] == b[0];
    if i > 0 && j > 0 {
      PrecedesTotal(a[0], b[0]);
    }
  }
}
