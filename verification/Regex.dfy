/** The part of Python's regular expressions that the built-in patterns of detectors/pii.py use:
    backtracking matches in order of preference, and the leftmost scan of `sub` and `findall`. */
module Regex {
  import opened Characters
  import opened Redactor

  datatype Regex =
    | Empty
    | Char(accepts: char -> bool)
    /** One or more characters, as many as possible. */
    | Many(accepts: char -> bool)
    | Cat(left: Regex, right: Regex)
    /** The left one is preferred. */
    | Or(left: Regex, right: Regex)
    /** A word boundary. */
    | Edge
    /** A negative lookahead. */
    | Not(ahead: Regex)

  function Opt(r: Regex): Regex {
    Or(r, Empty)
  }

  /** `r` at least `low` and at most `high` times, as often as possible. */
  function Repeat(r: Regex, low: nat, high: nat): Regex
    requires low <= high
  {
    if high == 0 then Empty
    else if low > 0 then Cat(r, Repeat(r, low - 1, high - 1))
    else Opt(Cat(r, Repeat(r, 0, high - 1)))
  }

  /** Where matches of `r` at `i` can end, the preferred end first. */
  function Ends(abc: Alphabet, r: Regex, s: string, i: nat): (ends: seq<nat>)
    requires i <= |s|
    ensures forall k :: 0 <= k < |ends| ==> i <= ends[k] <= |s|
    decreases r, 0
  {
    match r
    case Empty => [i]
    case Char(accepts) => if i < |s| && accepts(s[i]) then [i + 1] else []
    case Many(accepts) => RunEnds(accepts, s, i)
    case Cat(left, right) => EndsFrom(abc, right, s, i, Ends(abc, left, s, i))
    case Or(left, right) => Ends(abc, left, s, i) + Ends(abc, right, s, i)
    case Edge => if Boundary(abc, s, i) then [i] else []
    case Not(ahead) => if Ends(abc, ahead, s, i) == [] then [i] else []
  }

  /** The ends of matches at each of `starts`, in that order. */
  function EndsFrom(abc: Alphabet, r: Regex, s: string, i: nat, starts: seq<nat>): (ends: seq<nat>)
    requires forall k :: 0 <= k < |starts| ==> i <= starts[k] <= |s|
    ensures forall k :: 0 <= k < |ends| ==> i <= ends[k] <= |s|
    decreases r, |starts| + 1
  {
    if starts == [] then [] else Ends(abc, r, s, starts[0]) + EndsFrom(abc, r, s, i, starts[1..])
  }

  function RunEnds(accepts: char -> bool, s: string, i: nat): (ends: seq<nat>)
    requires i <= |s|
    ensures forall k :: 0 <= k < |ends| ==> i < ends[k] <= |s|
    decreases |s| - i
  {
    if i < |s| && accepts(s[i]) then RunEnds(accepts, s, i + 1) + [i + 1] else []
  }

  /** The leftmost non-overlapping matches from `i` on, of a pattern that does not match the
      empty text. */
  function FindFrom(abc: Alphabet, r: Regex, s: string, i: nat): (spans: seq<Span>)
    requires i <= |s|
    decreases |s| - i
  {
    var ends := Ends(abc, r, s, i);
    if ends != [] && ends[0] > i then [Span(i, ends[0])] + FindFrom(abc, r, s, ends[0])
    else if i == |s| then []
    else FindFrom(abc, r, s, i + 1)
  }

  function Find(abc: Alphabet, r: Regex): string -> seq<Span> {
    text => FindFrom(abc, r, text, 0)
  }

  // ------------------------------------------------------------------- matches

  /** A match from `i` to `e`. */
  predicate Matches(abc: Alphabet, r: Regex, s: string, i: nat, e: nat) {
    i <= |s| && e in Ends(abc, r, s, i)
  }

  lemma {:induction false} InEndsFrom(abc: Alphabet, r: Regex, s: string, i: nat, starts: seq<nat>, e: nat)
    requires forall k :: 0 <= k < |starts| ==> i <= starts[k] <= |s|
    ensures e in EndsFrom(abc, r, s, i, starts) <==> exists m :: m in starts && Matches(abc, r, s, m, e)
  {
    if starts != [] {
      InEndsFrom(abc, r, s, i, starts[1..], e);
      assert forall m :: m in starts <==> m == starts[0] || m in starts[1..];
      assert Matches(abc, r, s, starts[0], e) <==> e in Ends(abc, r, s, starts[0]);
    }
  }

  lemma MatchesCat(abc: Alphabet, a: Regex, b: Regex, s: string, i: nat, e: nat)
    ensures Matches(abc, Cat(a, b), s, i, e)
       <==> exists m :: Matches(abc, a, s, i, m) && Matches(abc, b, s, m, e)
  {
    if i <= |s| {
      InEndsFrom(abc, b, s, i, Ends(abc, a, s, i), e);
    }
  }

  lemma MatchesInside(abc: Alphabet, r: Regex, s: string, i: nat, e: nat)
    requires Matches(abc, r, s, i, e)
    ensures i <= e <= |s|
  {
  }

  /** Every span found is a match, and no position that the scan passes over begins one. */
  lemma {:induction false} FoundMatches(abc: Alphabet, r: Regex, s: string, i: nat)
    requires i <= |s|
    ensures Placed(s, i, FindFrom(abc, r, s, i))
    ensures forall x :: x in FindFrom(abc, r, s, i) ==> Matches(abc, r, s, x.start, x.end)
    decreases |s| - i
  {
    var ends := Ends(abc, r, s, i);
    if ends != [] && ends[0] > i {
      FoundMatches(abc, r, s, ends[0]);
      assert FindFrom(abc, r, s, i)[1..] == FindFrom(abc, r, s, ends[0]);
    } else if i < |s| {
      FoundMatches(abc, r, s, i + 1);
      PlacedEarlier(s, i, i + 1, FindFrom(abc, r, s, i + 1));
    }
  }

  lemma {:induction false} FoundNotEmpty(abc: Alphabet, r: Regex, s: string, i: nat, x: Span)
    requires i <= |s| && x in FindFrom(abc, r, s, i)
    ensures x.start < x.end
    decreases |s| - i
  {
    var ends := Ends(abc, r, s, i);
    if ends != [] && ends[0] > i {
      if x != Span(i, ends[0]) {
        FoundNotEmpty(abc, r, s, ends[0], x);
      }
    } else if i < |s| {
      FoundNotEmpty(abc, r, s, i + 1, x);
    }
  }

  lemma PlacedEarlier(s: string, i: nat, j: nat, spans: seq<Span>)
    requires i <= j && Placed(s, j, spans)
    ensures Placed(s, i, spans)
  {
  }

  lemma FindIsProper(abc: Alphabet, r: Regex)
    ensures ProperFinder(Find(abc, r))
  {
    forall text
      ensures Placed(text, 0, Find(abc, r)(text))
    {
      FoundMatches(abc, r, text, 0);
    }
  }

  lemma FirstMatches(abc: Alphabet, r: Regex, s: string, i: nat)
    requires i <= |s| && Ends(abc, r, s, i) != []
    ensures Matches(abc, r, s, i, Ends(abc, r, s, i)[0])
  {
  }

  lemma {:induction false} NothingFound(abc: Alphabet, r: Regex, s: string, i: nat)
    requires i <= |s| && forall j, e :: i <= j ==> !Matches(abc, r, s, j, e)
    ensures FindFrom(abc, r, s, i) == []
    decreases |s| - i
  {
    hide Ends, Matches;
    if Ends(abc, r, s, i) != [] {
      FirstMatches(abc, r, s, i);
    } else if i < |s| {
      NothingFound(abc, r, s, i + 1);
    }
  }

  lemma {:induction false} FoundIff(abc: Alphabet, r: Regex, s: string, i: nat)
    requires i <= |s| && MinLength(r) > 0
    ensures FindFrom(abc, r, s, i) != [] <==> exists j: nat, e: nat :: i <= j && Matches(abc, r, s, j, e)
  {
    FoundMatches(abc, r, s, i);
    if FindFrom(abc, r, s, i) != [] {
      var x := FindFrom(abc, r, s, i)[0];
      assert Matches(abc, r, s, x.start, x.end);
      FoundFrom(abc, r, s, i);
    } else {
      forall j: nat, e: nat | i <= j
        ensures !Matches(abc, r, s, j, e)
      {
        if j <= |s| {
          NoneBefore(abc, r, s, i, j, e);
        }
      }
    }
  }

  lemma {:induction false} FoundFrom(abc: Alphabet, r: Regex, s: string, i: nat)
    requires i <= |s| && FindFrom(abc, r, s, i) != []
    ensures i <= FindFrom(abc, r, s, i)[0].start
    decreases |s| - i
  {
    var ends := Ends(abc, r, s, i);
    if !(ends != [] && ends[0] > i) && i < |s| {
      FoundFrom(abc, r, s, i + 1);
    }
  }

  /** A text with one match: that one is found. */
  lemma {:induction false} FindOnly(abc: Alphabet, r: Regex, s: string, i: nat, a: nat, b: nat)
    requires i <= a < b <= |s| && Matches(abc, r, s, a, b)
    requires forall j: nat, e: nat :: Matches(abc, r, s, j, e) ==> j == a && e == b
    ensures FindFrom(abc, r, s, i) == [Span(a, b)]
    decreases a - i
  {
    hide Ends, Matches;
    if i < a {
      if Ends(abc, r, s, i) != [] {
        FirstMatches(abc, r, s, i);
      }
      FindOnly(abc, r, s, i + 1, a, b);
    } else {
      SomeEnd(abc, r, s, a, b);
      FirstMatches(abc, r, s, a);
      NothingFound(abc, r, s, b);
    }
  }

  /** Where no match reaches across `a` and one from `a` can end at `b` only, that one is found
      if it is one. */
  lemma {:induction false} FindAcross(abc: Alphabet, r: Regex, s: string, i: nat, a: nat, b: nat)
    requires i <= a < b <= |s|
    requires forall j: nat, e: nat :: j < a && Matches(abc, r, s, j, e) ==> e <= a
    requires forall e: nat :: Matches(abc, r, s, a, e) ==> e == b
    ensures Span(a, b) in FindFrom(abc, r, s, i) <==> Matches(abc, r, s, a, b)
    decreases a - i
  {
    hide Ends, Matches;
    FoundMatches(abc, r, s, i);
    if Matches(abc, r, s, a, b) {
      if Ends(abc, r, s, i) != [] {
        FirstMatches(abc, r, s, i);
      }
      if i < a {
        var ends := Ends(abc, r, s, i);
        FindAcross(abc, r, s, if ends != [] && ends[0] > i then ends[0] else i + 1, a, b);
      } else {
        SomeEnd(abc, r, s, a, b);
      }
    }
  }

  lemma SomeEnd(abc: Alphabet, r: Regex, s: string, i: nat, e: nat)
    requires Matches(abc, r, s, i, e)
    ensures Ends(abc, r, s, i) != []
  {
  }

  // -------------------------------------------- what a match is made of

  /** No character but those that satisfy `p` is accepted anywhere. */
  ghost predicate Within(r: Regex, p: char -> bool) {
    match r
    case Empty => true
    case Char(accepts) => forall c :: accepts(c) ==> p(c)
    case Many(accepts) => forall c :: accepts(c) ==> p(c)
    case Cat(a, b) => Within(a, p) && Within(b, p)
    case Or(a, b) => Within(a, p) && Within(b, p)
    case Edge => true
    case Not(_) => true
  }

  lemma {:induction false} MatchWithin(abc: Alphabet, r: Regex, p: char -> bool, s: string, i: nat, e: nat)
    requires Within(r, p) && Matches(abc, r, s, i, e)
    ensures forall j :: i <= j < e ==> p(s[j])
  {
    match r
    case Many(accepts) =>
      RunWithin(accepts, s, i, e);
    case Cat(a, b) =>
      MatchesCat(abc, a, b, s, i, e);
      var m :| Matches(abc, a, s, i, m) && Matches(abc, b, s, m, e);
      MatchWithin(abc, a, p, s, i, m);
      MatchWithin(abc, b, p, s, m, e);
    case Or(a, b) =>
      if Matches(abc, a, s, i, e) {
        MatchWithin(abc, a, p, s, i, e);
      } else {
        MatchWithin(abc, b, p, s, i, e);
      }
    case _ =>
  }

  lemma {:induction false} RunWithin(accepts: char -> bool, s: string, i: nat, e: nat)
    requires i <= |s|
    ensures e in RunEnds(accepts, s, i) <==> i < e <= |s| && forall j :: i <= j < e ==> accepts(s[j])
    decreases |s| - i
  {
    if i < |s| && accepts(s[i]) {
      RunWithin(accepts, s, i + 1, e);
    }
  }

  /** Every match contains a character that satisfies `p`. */
  ghost predicate Needs(r: Regex, p: char -> bool) {
    match r
    case Empty => false
    case Char(accepts) => forall c :: accepts(c) ==> p(c)
    case Many(accepts) => forall c :: accepts(c) ==> p(c)
    case Cat(a, b) => Needs(a, p) || Needs(b, p)
    case Or(a, b) => Needs(a, p) && Needs(b, p)
    case Edge => false
    case Not(_) => false
  }

  lemma {:induction false} MatchNeeds(abc: Alphabet, r: Regex, p: char -> bool, s: string, i: nat, e: nat)
    returns (j: nat)
    requires Needs(r, p) && Matches(abc, r, s, i, e)
    ensures i <= j < e <= |s| && p(s[j])
  {
    j := i;
    match r
    case Many(accepts) =>
      RunWithin(accepts, s, i, e);
    case Cat(a, b) =>
      MatchesCat(abc, a, b, s, i, e);
      var m :| Matches(abc, a, s, i, m) && Matches(abc, b, s, m, e);
      if Needs(a, p) {
        j := MatchNeeds(abc, a, p, s, i, m);
      } else {
        j := MatchNeeds(abc, b, p, s, m, e);
      }
    case Or(a, b) =>
      if Matches(abc, a, s, i, e) {
        j := MatchNeeds(abc, a, p, s, i, e);
      } else {
        j := MatchNeeds(abc, b, p, s, i, e);
      }
    case _ =>
  }

  function MinLength(r: Regex): nat {
    match r
    case Empty => 0
    case Char(_) => 1
    case Many(_) => 1
    case Cat(a, b) => MinLength(a) + MinLength(b)
    case Or(a, b) => if MinLength(a) <= MinLength(b) then MinLength(a) else MinLength(b)
    case Edge => 0
    case Not(_) => 0
  }

  lemma {:induction false} MatchLength(abc: Alphabet, r: Regex, s: string, i: nat, e: nat)
    requires Matches(abc, r, s, i, e)
    ensures i + MinLength(r) <= e <= |s|
  {
    match r
    case Cat(a, b) =>
      MatchesCat(abc, a, b, s, i, e);
      var m :| Matches(abc, a, s, i, m) && Matches(abc, b, s, m, e);
      MatchLength(abc, a, s, i, m);
      MatchLength(abc, b, s, m, e);
    case Or(a, b) =>
      if Matches(abc, a, s, i, e) {
        MatchLength(abc, a, s, i, e);
      } else {
        MatchLength(abc, b, s, i, e);
      }
    case _ =>
  }

  /** A pattern that is anchored at word boundaries on both sides matches only between such. */
  lemma AnchoredMatch(abc: Alphabet, body: Regex, s: string, i: nat, e: nat)
    requires Matches(abc, Cat(Edge, Cat(body, Edge)), s, i, e)
    ensures i <= e <= |s| && Boundary(abc, s, i) && Boundary(abc, s, e) && Matches(abc, body, s, i, e)
  {
    MatchesCat(abc, Edge, Cat(body, Edge), s, i, e);
    var m :| Matches(abc, Edge, s, i, m) && Matches(abc, Cat(body, Edge), s, m, e);
    MatchesCat(abc, body, Edge, s, m, e);
    var n :| Matches(abc, body, s, m, n) && Matches(abc, Edge, s, n, e);
  }

  // --------------------------------------------- patterns that do not look around

  predicate Plain(r: Regex) {
    match r
    case Cat(a, b) => Plain(a) && Plain(b)
    case Or(a, b) => Plain(a) && Plain(b)
    case Edge => false
    case Not(_) => false
    case _ => true
  }

  /** Whether such a pattern matches depends on the characters that it matches and on nothing else. */
  lemma {:induction false} MatchLocal(abc: Alphabet, r: Regex, s: string, i: nat, t: string, j: nat, n: nat)
    requires Plain(r) && i + n <= |s| && j + n <= |t| && s[i..i + n] == t[j..j + n]
    requires Matches(abc, r, s, i, i + n)
    ensures Matches(abc, r, t, j, j + n)
  {
    hide Ends;
    match r
    case Empty =>
      OneLocal(abc, r, s, i, t, j, n);
    case Char(_) =>
      OneLocal(abc, r, s, i, t, j, n);
    case Many(accepts) =>
      RunLocal(abc, accepts, s, i, t, j, n);
    case Cat(a, b) =>
      var m := SplitCat(abc, a, b, s, i, i + n);
      var d := m - i;
      SubSlices(s, i, t, j, n, d);
      MatchLocal(abc, a, s, i, t, j, d);
      MatchLocal(abc, b, s, m, t, j + d, n - d);
      MatchesCat(abc, a, b, t, j, j + n);
    case Or(a, b) =>
      MatchesOr(abc, a, b, s, i, i + n);
      MatchesOr(abc, a, b, t, j, j + n);
      if Matches(abc, a, s, i, i + n) {
        MatchLocal(abc, a, s, i, t, j, n);
      } else {
        MatchLocal(abc, b, s, i, t, j, n);
      }
  }

  lemma SplitCat(abc: Alphabet, a: Regex, b: Regex, s: string, i: nat, e: nat) returns (m: nat)
    requires Matches(abc, Cat(a, b), s, i, e)
    ensures i <= m <= e <= |s| && Matches(abc, a, s, i, m) && Matches(abc, b, s, m, e)
  {
    MatchesCat(abc, a, b, s, i, e);
    m :| Matches(abc, a, s, i, m) && Matches(abc, b, s, m, e);
    MatchesInside(abc, a, s, i, m);
    MatchesInside(abc, b, s, m, e);
  }

  lemma JoinCat(abc: Alphabet, a: Regex, b: Regex, s: string, i: nat, m: nat, e: nat)
    requires Matches(abc, a, s, i, m) && Matches(abc, b, s, m, e)
    ensures Matches(abc, Cat(a, b), s, i, e)
  {
    MatchesCat(abc, a, b, s, i, e);
  }

  lemma MatchesOr(abc: Alphabet, a: Regex, b: Regex, s: string, i: nat, e: nat)
    ensures Matches(abc, Or(a, b), s, i, e) <==> Matches(abc, a, s, i, e) || Matches(abc, b, s, i, e)
  {
  }

  lemma OneLocal(abc: Alphabet, r: Regex, s: string, i: nat, t: string, j: nat, n: nat)
    requires r.Empty? || r.Char?
    requires i + n <= |s| && j + n <= |t| && s[i..i + n] == t[j..j + n] && Matches(abc, r, s, i, i + n)
    ensures Matches(abc, r, t, j, j + n)
  {
    if r.Char? {
      assert s[i] == s[i..i + n][0] == t[j..j + n][0] == t[j];
    }
  }

  lemma RunLocal(abc: Alphabet, accepts: char -> bool, s: string, i: nat, t: string, j: nat, n: nat)
    requires i + n <= |s| && j + n <= |t| && s[i..i + n] == t[j..j + n]
    requires Matches(abc, Many(accepts), s, i, i + n)
    ensures Matches(abc, Many(accepts), t, j, j + n)
  {
    RunWithin(accepts, s, i, i + n);
    forall k | j <= k < j + n
      ensures accepts(t[k])
    {
      assert t[k] == t[j..j + n][k - j] == s[i..i + n][k - j] == s[i + (k - j)];
    }
    RunWithin(accepts, t, j, j + n);
  }

  lemma SubSlices(s: string, i: nat, t: string, j: nat, n: nat, d: nat)
    requires i + n <= |s| && j + n <= |t| && s[i..i + n] == t[j..j + n] && d <= n
    ensures s[i..i + d] == t[j..j + d] && s[i + d..i + n] == t[j + d..j + n]
  {
    assert s[i..i + n][..d] == s[i..i + d] && t[j..j + n][..d] == t[j..j + d];
    assert s[i..i + n][d..] == s[i + d..i + n] && t[j..j + n][d..] == t[j + d..j + n];
  }

  /** The first match found, or the end of the text. */
  function FirstStart(s: string, spans: seq<Span>): nat {
    if spans == [] then |s| + 1 else spans[0].start
  }

  lemma {:induction false} NoneBefore(abc: Alphabet, r: Regex, s: string, i: nat, j: nat, e: nat)
    requires MinLength(r) > 0 && i <= |s| && i <= j < FirstStart(s, FindFrom(abc, r, s, i))
    ensures !Matches(abc, r, s, j, e)
    decreases |s| - i
  {
    var ends := Ends(abc, r, s, i);
    if ends != [] {
      assert Matches(abc, r, s, i, ends[0]);
      MatchLength(abc, r, s, i, ends[0]);
    } else if j > i && i < |s| {
      NoneBefore(abc, r, s, i + 1, j, e);
    }
  }

  lemma CatFacts(a: Regex, b: Regex, p: char -> bool)
    ensures Plain(Cat(a, b)) <==> Plain(a) && Plain(b)
    ensures Within(Cat(a, b), p) <==> Within(a, p) && Within(b, p)
    ensures MinLength(Cat(a, b)) == MinLength(a) + MinLength(b)
    ensures Needs(a, p) ==> Needs(Cat(a, b), p)
  {
  }

  lemma {:induction false} RepeatFacts(r: Regex, low: nat, high: nat, p: char -> bool)
    requires low <= high
    ensures Within(r, p) ==> Within(Repeat(r, low, high), p)
    ensures Plain(r) ==> Plain(Repeat(r, low, high))
    ensures MinLength(Repeat(r, low, high)) == low * MinLength(r)
  {
    if high > 0 {
      RepeatFacts(r, if low > 0 then low - 1 else 0, high - 1, p);
      if low > 0 {
        assert low * MinLength(r) == (low - 1) * MinLength(r) + MinLength(r);
      }
    }
  }
}
